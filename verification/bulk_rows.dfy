/** The roster upload in terms of the file's rows: which are usable, what they write, and why others are skipped. */
module BulkRows {
  import opened Wrappers
  import opened Text
  import opened BulkUpload

  // ---------- Which rows are usable ----------

  /** The row's address, trimmed and in lower case. */
  function Address(row: EmployeeRow): string {
    if row.email.Some? then Lower(Trim(row.email.value)) else ""
  }

  /** Something with neither white space nor @ in it. */
  predicate Plain(s: string) {
    s != "" && forall i :: 0 <= i < |s| ==> !IsSpace(s[i]) && s[i] != '@'
  }

  /** local@host.tld */
  ghost predicate ValidAddress(s: string) {
    exists local, host, tld :: Plain(local) && Plain(host) && Plain(tld) && s == local + ("@" + (host + ("." + tld)))
  }

  ghost predicate OnDomain(address: string, domain: string) {
    exists local :: '@' !in local && '@' !in domain && address == local + ("@" + domain)
  }

  ghost predicate OnVerified(row: EmployeeRow, limits: Limits) {
    exists domain :: domain in limits.verifiedDomains && OnDomain(Address(row), domain)
  }

  predicate HasName(row: EmployeeRow) {
    row.name.Some? && Trim(row.name.value) != ""
  }

  /** The first of the checks that the row fails on its own, if any. */
  ghost function Defect(row: EmployeeRow, limits: Limits): Option<Reason> {
    if !ValidAddress(Address(row)) then Some(InvalidEmail)
    else if !HasName(row) then Some(MissingName)
    else if !OnVerified(row, limits) then Some(UnverifiedDomain)
    else None
  }

  ghost predicate Usable(row: EmployeeRow, limits: Limits) {
    Defect(row, limits).None?
  }

  /** The name and the department of an entry are those of the row, trimmed; a blank department is none. */
  predicate Writes(row: EmployeeRow, entry: Profile) {
    && row.name.Some? && entry.name == Trim(row.name.value)
    && entry.department == if row.department.None? || Trim(row.department.value) == "" then None
                           else Some(Trim(row.department.value))
  }

  lemma EmailParts(s: string, at: nat, dot: nat)
    requires 0 < at && at + 1 < dot < |s| - 1 && s[at] == '@' && s[dot] == '.'
    requires forall k :: 0 <= k < |s| ==> !IsSpace(s[k]) && (s[k] == '@' ==> k == at)
    ensures ValidAddress(s)
  {
    var local, host, tld := s[..at], s[at + 1..dot], s[dot + 1..];
    assert Plain(local) && Plain(host) && Plain(tld);
    assert s == local + ("@" + (host + ("." + tld)));
  }

  lemma PartsEmail(s: string, local: string, host: string, tld: string)
    requires Plain(local) && Plain(host) && Plain(tld) && s == local + ("@" + (host + ("." + tld)))
    ensures IsEmail(s)
  {
    var at, dot := |local|, |local| + 1 + |host|;
    assert s[at] == '@' && s[dot] == '.';
    forall k | 0 <= k < |s| ensures !IsSpace(s[k]) && (s[k] == '@' ==> k == at) {
      if k < at { assert s[k] == local[k]; }
      else if at < k < dot { assert s[k] == host[k - at - 1]; }
      else if k > dot { assert s[k] == tld[k - dot - 1]; }
    }
  }

  lemma EmailIsAddress(s: string)
    ensures IsEmail(s) <==> ValidAddress(s)
  {
    if IsEmail(s) {
      var at, dot :| 0 < at && at + 1 < dot < |s| - 1 && s[at] == '@' && s[dot] == '.'
        && forall k :: 0 <= k < |s| ==> !IsSpace(s[k]) && (s[k] == '@' ==> k == at);
      EmailParts(s, at, dot);
    }
    if ValidAddress(s) {
      var local, host, tld :|
        Plain(local) && Plain(host) && Plain(tld) && s == local + ("@" + (host + ("." + tld)));
      PartsEmail(s, local, host, tld);
    }
  }

  lemma NoEarlierAt(local: string, rest: string)
    requires '@' !in local && rest != "" && rest[0] == '@'
    ensures IndexOf(local + rest, '@') == |local|
  {
    var s := local + rest;
    assert s[|local|] == '@';
    assert forall k :: 0 <= k < |local| ==> s[k] == local[k] && local[k] in local;
  }

  lemma NoAt(s: string)
    requires '@' !in s
    ensures IndexOf(s, '@') == |s|
  {
    assert forall k :: 0 <= k < |s| ==> s[k] in s;
  }

  lemma AfterAt(local: string, domain: string)
    requires '@' !in local && '@' !in domain
    ensures DomainOf(local + ("@" + domain)) == Lower(Trim(domain))
  {
    var s := local + ("@" + domain);
    NoEarlierAt(local, "@" + domain);
    assert s[|local| + 1..] == domain;
    NoAt(domain);
    assert domain[..|domain|] == domain;
  }

  /** The domain of a valid address in lower case is what follows its only @. */
  lemma DomainIs(s: string, domain: string)
    requires ValidAddress(s) && Lower(s) == s && OnDomain(s, domain)
    ensures DomainOf(s) == domain
  {
    EmailIsAddress(s);
    var local :| '@' !in local && '@' !in domain && s == local + ("@" + domain);
    AfterAt(local, domain);
    CleanDomain(local, domain);
  }

  lemma CleanDomain(local: string, domain: string)
    requires IsEmail(local + ("@" + domain)) && Lower(local + ("@" + domain)) == local + ("@" + domain)
    ensures Lower(Trim(domain)) == domain
  {
    var s, n := local + ("@" + domain), |local| + 1;
    forall i | 0 <= i < |domain| ensures !IsSpace(domain[i]) && LowerChar(domain[i]) == domain[i] {
      assert s[n + i] == domain[i] && Lower(s)[n + i] == LowerChar(s[n + i]);
    }
    assert Lower(domain) == domain;
    if domain != "" { TrimWhole(domain); }
  }

  lemma HasADomain(s: string)
    requires ValidAddress(s)
    ensures exists domain :: OnDomain(s, domain)
  {
    var local, host, tld :|
      Plain(local) && Plain(host) && Plain(tld) && s == local + ("@" + (host + ("." + tld)));
    assert '@' !in local && '@' !in host + ("." + tld);
    assert OnDomain(s, host + ("." + tld));
  }

  lemma LowerTwice(s: string)
    ensures Lower(Lower(s)) == Lower(s)
  {
  }

  lemma VerifiedIs(row: EmployeeRow, limits: Limits)
    requires ValidAddress(Address(row))
    ensures DomainOf(Address(row)) in limits.verifiedDomains <==> OnVerified(row, limits)
  {
    var s := Address(row);
    if row.email.Some? { LowerTwice(Trim(row.email.value)); }
    HasADomain(s);
    var domain :| OnDomain(s, domain);
    DomainIs(s, domain);
    if OnVerified(row, limits) {
      var d :| d in limits.verifiedDomains && OnDomain(s, d);
      DomainIs(s, d);
    }
  }

  /** What the checks make of a row. */
  lemma ClassifyMeans(row: EmployeeRow, limits: Limits)
    ensures
      var (item, given) := (Classify(row, limits), if row.email.Some? then Some(Address(row)) else None);
      if Defect(row, limits).Some? then item == Bad(given, Defect(row, limits).value)
      else item.Good? && item.email == Address(row) && Writes(row, item.profile) && given == Some(item.email)
  {
    EmailIsAddress(Address(row));
    if ValidAddress(Address(row)) {
      assert row.email.Some?;
      VerifiedIs(row, limits);
    }
  }

  // ---------- What ends up on the roster ----------

  /** The first usable row of an address. */
  ghost predicate FirstUsable(rows: seq<EmployeeRow>, i: nat, e: string, limits: Limits) {
    && i < |rows| && Usable(rows[i], limits) && Address(rows[i]) == e
    && forall j :: 0 <= j < i ==> !(Usable(rows[j], limits) && Address(rows[j]) == e)
  }

  lemma GoodIsUsable(rows: seq<EmployeeRow>, limits: Limits, i: nat, e: string)
    requires i < |rows|
    ensures
      var item := Items(rows, limits)[i];
      item.Good? && item.email == e <==> Usable(rows[i], limits) && Address(rows[i]) == e
  {
    ClassifyMeans(rows[i], limits);
  }

  lemma AddressesAre(rows: seq<EmployeeRow>, limits: Limits, n: nat, e: string)
    requires n <= |rows|
    ensures e in Addresses(Items(rows, limits)[..n]) <==>
              exists i :: 0 <= i < n && Usable(rows[i], limits) && Address(rows[i]) == e
  {
    var items := Items(rows, limits)[..n];
    forall i | 0 <= i < n ensures items[i].Good? && items[i].email == e <==>
                                  Usable(rows[i], limits) && Address(rows[i]) == e {
      GoodIsUsable(rows, limits, i, e);
    }
    if e in Addresses(items) {
      var i :| 0 <= i < |items| && items[i].Good? && items[i].email == e;
      assert Usable(rows[i], limits) && Address(rows[i]) == e;
    }
  }

  /**
   An address on the roster after an upload has the entry that its first usable row writes: a valid address on a
   verified domain, with a name. An address without a usable row is there only if it was there before, with its entry.
   */
  lemma RowsDecide(roster: Roster, rows: seq<EmployeeRow>, limits: Limits, e: string)
    requires e in Upload(roster, rows, limits).roster
    ensures
      var after := Upload(roster, rows, limits).roster;
      || (exists i: nat :: FirstUsable(rows, i, e, limits) && Writes(rows[i], after[e]))
      || ((forall i :: 0 <= i < |rows| ==> !(Usable(rows[i], limits) && Address(rows[i]) == e))
          && e in roster && after[e] == roster[e])
  {
    var (items, after) := (Items(rows, limits), Upload(roster, rows, limits).roster);
    UploadDecides(roster, rows, limits, e);
    forall i | 0 <= i < |rows| ensures items[i].Good? && items[i].email == e <==>
                                       Usable(rows[i], limits) && Address(rows[i]) == e {
      GoodIsUsable(rows, limits, i, e);
    }
    if e in Addresses(items) {
      var i: nat :| i < |items| && FirstGood(items, i, e) && after[e] == items[i].profile;
      ClassifyMeans(rows[i], limits);
      assert FirstUsable(rows, i, e, limits);
    } else {
      forall i | 0 <= i < |rows| ensures !(Usable(rows[i], limits) && Address(rows[i]) == e) {
        assert items[i].Good? ==> items[i].email in Addresses(items);
      }
    }
  }

  // ---------- What becomes of each row ----------

  /** The distinct new addresses that the rows before this one ask to onboard. */
  ghost function NewBefore(rows: seq<EmployeeRow>, i: nat, roster: Roster, limits: Limits): set<string>
    requires i <= |rows|
  {
    set j | 0 <= j < i && Usable(rows[j], limits) && Address(rows[j]) !in roster :: Address(rows[j])
  }

  ghost predicate Repeats(rows: seq<EmployeeRow>, i: nat, limits: Limits)
    requires i < |rows|
  {
    exists j :: 0 <= j < i && Usable(rows[j], limits) && Address(rows[j]) == Address(rows[i])
  }

  /** Why a row is skipped, if it is: the first of all the checks that it fails. */
  ghost function RowFate(rows: seq<EmployeeRow>, i: nat, roster: Roster, limits: Limits): Option<Reason>
    requires i < |rows|
  {
    var row := rows[i];
    if Defect(row, limits).Some? then Defect(row, limits)
    else if Repeats(rows, i, limits) then Some(DuplicateInFile)
    else if Address(row) in roster then None
    else if limits.seatLimit.Some? && |roster| + |NewBefore(rows, i, roster, limits)| >= limits.seatLimit.value
      then Some(SeatLimitReached)
    else None
  }

  lemma NewBeforeIs(rows: seq<EmployeeRow>, i: nat, roster: Roster, limits: Limits)
    requires i <= |rows|
    ensures Addresses(Items(rows, limits)[..i]) - roster.Keys == NewBefore(rows, i, roster, limits)
  {
    var before := Addresses(Items(rows, limits)[..i]);
    forall e ensures e in before - roster.Keys <==> e in NewBefore(rows, i, roster, limits) {
      AddressesAre(rows, limits, i, e);
    }
  }

  lemma EmailIs(rows: seq<EmployeeRow>, i: nat, limits: Limits)
    requires i < |rows|
    ensures EmailOf(Items(rows, limits)[i]) == if rows[i].email.Some? then Some(Address(rows[i])) else None
  {
    ClassifyMeans(rows[i], limits);
  }

  lemma RepeatsIs(rows: seq<EmployeeRow>, i: nat, limits: Limits)
    requires i < |rows|
    ensures Address(rows[i]) in Addresses(Items(rows, limits)[..i]) <==> Repeats(rows, i, limits)
  {
    AddressesAre(rows, limits, i, Address(rows[i]));
  }

  lemma SeatsAre(rows: seq<EmployeeRow>, i: nat, roster: Roster, limits: Limits)
    requires i <= |rows|
    ensures SeatsLeft(roster, Items(rows, limits)[..i], limits.seatLimit) <==>
              limits.seatLimit.None? || |roster| + |NewBefore(rows, i, roster, limits)| < limits.seatLimit.value
  {
    NewBeforeIs(rows, i, roster, limits);
  }

  lemma FateIs(rows: seq<EmployeeRow>, i: nat, roster: Roster, limits: Limits)
    requires i < |rows|
    ensures Fate(Items(rows, limits), i, roster, limits.seatLimit) == RowFate(rows, i, roster, limits)
  {
    ClassifyMeans(rows[i], limits);
    RepeatsIs(rows, i, limits);
    SeatsAre(rows, i, roster, limits);
  }

  ghost predicate IsEntry(entry: Skipped, rows: seq<EmployeeRow>, i: nat, roster: Roster, limits: Limits)
    requires i < |rows|
  {
    var fate := RowFate(rows, i, roster, limits);
    && fate.Some? && entry.row == i + 2 && entry.reason == fate.value
    && entry.email == if rows[i].email.Some? then Some(Address(rows[i])) else None
  }

  lemma EntryIs(entry: Skipped, rows: seq<EmployeeRow>, i: nat, roster: Roster, limits: Limits)
    requires i < |rows|
    ensures Reported(entry, Items(rows, limits), i, roster, limits.seatLimit) <==>
              IsEntry(entry, rows, i, roster, limits)
  {
    FateIs(rows, i, roster, limits);
    EmailIs(rows, i, limits);
  }

  /** The report lists exactly the rows that fail a check, in file order, each with its number in the file, its
      address and the first check it fails. */
  lemma RowsReported(roster: Roster, rows: seq<EmployeeRow>, limits: Limits)
    ensures
      var skipped := Upload(roster, rows, limits).result.skipped;
      && (forall entry :: entry in skipped <==> exists i: nat :: i < |rows| && IsEntry(entry, rows, i, roster, limits))
      && (forall j, k :: 0 <= j < k < |skipped| ==> skipped[j].row < skipped[k].row)
  {
    var (items, skipped) := (Items(rows, limits), Upload(roster, rows, limits).result.skipped);
    SkippedExact(roster, rows, limits);
    forall entry ensures entry in skipped <==> exists i: nat :: i < |rows| && IsEntry(entry, rows, i, roster, limits) {
      assert entry in skipped <==> InReport(entry, items, |items|, roster, limits.seatLimit);
      forall i: nat | i < |rows|
        ensures Reported(entry, items, i, roster, limits.seatLimit) <==> IsEntry(entry, rows, i, roster, limits)
      {
        EntryIs(entry, rows, i, roster, limits);
      }
    }
  }

  lemma TakenOn(roster: Roster, items: seq<Item>, i: nat, seatLimit: Option<int>)
    requires i < |items| && items[i].Good? && Fate(items, i, roster, seatLimit).None?
    ensures items[i].email in After(roster, items, i + 1, seatLimit).roster
  {
    PrefixKnows(roster, items[..i], seatLimit, items[i].email);
    AfterNext(roster, items, i, seatLimit);
  }

  lemma WholeFile(roster: Roster, rows: seq<EmployeeRow>, limits: Limits)
    ensures After(roster, Items(rows, limits), |rows|, limits.seatLimit) == Upload(roster, rows, limits)
  {
    assert Items(rows, limits)[..|rows|] == Items(rows, limits);
  }

  /** A row that is not skipped is on the roster afterwards. */
  lemma NotSkippedIsOn(roster: Roster, rows: seq<EmployeeRow>, limits: Limits, i: nat)
    requires i < |rows| && RowFate(rows, i, roster, limits).None?
    ensures Address(rows[i]) in Upload(roster, rows, limits).roster
  {
    var items := Items(rows, limits);
    ClassifyMeans(rows[i], limits);
    FateIs(rows, i, roster, limits);
    TakenOn(roster, items, i, limits.seatLimit);
    StaysOn(roster, items, i + 1, |items|, limits.seatLimit, items[i].email);
    WholeFile(roster, rows, limits);
  }

  lemma {:induction false} StaysOn(roster: Roster, items: seq<Item>, n: nat, m: nat, seatLimit: Option<int>, e: string)
    requires n <= m <= |items| && e in After(roster, items, n, seatLimit).roster
    ensures e in After(roster, items, m, seatLimit).roster
    decreases m
  {
    if n < m {
      StaysOn(roster, items, n, m - 1, seatLimit, e);
      AfterNext(roster, items, m - 1, seatLimit);
    }
  }

  /** The created are as many as the free seats hold of the distinct usable addresses that were not on the roster;
      every row is created, updated or skipped; and the roster grows by the created and never past the cap. */
  lemma RowsCounted(roster: Roster, rows: seq<EmployeeRow>, limits: Limits)
    ensures
      var (q, asked) := (Upload(roster, rows, limits), |NewBefore(rows, |rows|, roster, limits)|);
      && |rows| == q.result.created + q.result.updated + |q.result.skipped|
      && |q.roster| == |roster| + q.result.created
      && (limits.seatLimit.None? ==> q.result.created == asked)
      && (limits.seatLimit.Some? ==>
            var free := Max(0, limits.seatLimit.value - |roster|);
            q.result.created == (if asked < free then asked else free))
  {
    UploadCounts(roster, rows, limits);
    NewBeforeIs(rows, |rows|, roster, limits);
    assert Items(rows, limits)[..|rows|] == Items(rows, limits);
  }
}
