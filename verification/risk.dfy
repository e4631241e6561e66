/** The per-employee risk score, over exact rationals, and the ranked list of everybody's. */
module Risk {
  import opened Wrappers

  type EmployeeId = nat

  datatype Employee = Employee(id: EmployeeId, name: string, email: string, department: Option<string>)

  datatype Counts = Counts(sends: nat, clicks: nat, reports: nat, creds: nat, quizPasses: nat)

  datatype Level = Low | Moderate | High | Critical

  datatype EmployeeRisk = EmployeeRisk(
    employee: Employee,
    counts: Counts,
    riskScore: int,
    riskLevel: Level,
    repeatClicker: bool,
    points: seq<int>)

  const REPEAT_CLICKER_THRESHOLD := 2

  // ---------- The scoring ----------

  /** Math.round: to the nearest integer, halves upward. */
  function Round(x: real): int {
    (x + 0.5).Floor
  }

  function Rate(n: nat, sends: nat): real {
    if sends == 0 then 0.0 else n as real / sends as real
  }

  function AtMostFive(n: nat): nat {
    if n < 5 then n else 5
  }

  function ClickPart(c: Counts): real { Rate(c.clicks, c.sends) * 60.0 }
  function SubmitPart(c: Counts): real { Rate(c.creds, c.sends) * 40.0 }
  function RepeatPart(c: Counts): real { (AtMostFive(c.clicks) * 4) as real }
  function ReportPart(c: Counts): real { -(Rate(c.reports, c.sends) * 25.0) }
  function QuizPart(c: Counts): real { -((AtMostFive(c.quizPasses) * 3) as real) }

  function Score(c: Counts): real {
    ClickPart(c) + SubmitPart(c) + RepeatPart(c) + ReportPart(c) + QuizPart(c)
  }

  function Clamp(n: int): int {
    if n < 0 then 0 else if n > 100 then 100 else n
  }

  function RiskScore(c: Counts): int {
    Clamp(Round(Score(c)))
  }

  function LevelOf(score: int): Level {
    if score >= 75 then Critical else if score >= 50 then High else if score >= 25 then Moderate else Low
  }

  function Points(c: Counts): seq<int> {
    [Round(ClickPart(c)), Round(SubmitPart(c)), Round(RepeatPart(c)), Round(ReportPart(c)), Round(QuizPart(c))]
  }

  function Assemble(e: Employee, c: Counts): EmployeeRisk {
    EmployeeRisk(e, c, RiskScore(c), LevelOf(RiskScore(c)), c.clicks >= REPEAT_CLICKER_THRESHOLD, Points(c))
  }

  lemma RoundMonotone(x: real, y: real)
    requires x <= y
    ensures Round(x) <= Round(y)
  {
  }

  lemma RoundWhole(n: int)
    ensures Round(n as real) == n
  {
  }

  lemma RoundError(x: real)
    ensures -0.5 < Round(x) as real - x <= 0.5
  {
  }

  /** The points shown to the client add up to within 1 of the rounded score before clamping. */
  lemma BreakdownSums(c: Counts)
    ensures
      var p := Points(c);
      -1 <= p[0] + p[1] + p[2] + p[3] + p[4] - Round(Score(c)) <= 1
  {
    RoundError(ClickPart(c));
    RoundError(SubmitPart(c));
    RoundError(ReportPart(c));
    RoundError(Score(c));
    RoundWhole(AtMostFive(c.clicks) * 4);
    RoundWhole(-(AtMostFive(c.quizPasses) * 3));
    var p := Points(c);
    var d := p[0] + p[1] + p[2] + p[3] + p[4] - Round(Score(c));
    assert -2.0 < d as real < 2.0;
  }

  lemma RateMonotone(n: nat, m: nat, sends: nat)
    requires n <= m
    ensures Rate(n, sends) <= Rate(m, sends)
  {
    if sends > 0 {
      DivideMonotone(n as real, m as real, sends as real);
    }
  }

  lemma DivideMonotone(x: real, y: real, d: real)
    requires x <= y && d > 0.0
    ensures x / d <= y / d
  {
  }

  /** The score lies in 0..100; more clicks or submissions never lower it, more reports or quiz passes never raise
      it. */
  lemma ScoreMonotone(c: Counts, d: Counts)
    requires c.sends == d.sends && c.clicks <= d.clicks && c.creds <= d.creds
    requires d.reports <= c.reports && d.quizPasses <= c.quizPasses
    ensures 0 <= RiskScore(c) <= RiskScore(d) <= 100
  {
    RateMonotone(c.clicks, d.clicks, c.sends);
    RateMonotone(c.creds, d.creds, c.sends);
    RateMonotone(d.reports, c.reports, c.sends);
    assert Score(c) <= Score(d);
    RoundMonotone(Score(c), Score(d));
  }

  lemma TimesMonotone(x: real, y: real, d: real)
    requires x < y && d > 0.0
    ensures x * d < y * d
  {
  }

  lemma TimesAtLeast(x: real, y: real, d: real)
    requires x <= y && d > 0.0
    ensures x * d <= y * d
  {
  }

  lemma QuotientWithin(n: real, d: real, q: real)
    requires d > 0.0 && q * d <= n < (q + 1.0) * d
    ensures q <= n / d < q + 1.0
  {
    var x := n / d;
    assert x * d == n;
    if x < q { TimesMonotone(x, q, d); }
    if x >= q + 1.0 { TimesAtLeast(q + 1.0, x, d); }
  }

  lemma FloorOfQuotient(n: int, d: nat)
    requires d > 0
    ensures (n as real / d as real).Floor == n / d
  {
    var q := n / d;
    assert q * d <= n < q * d + d;
    assert (q * d) as real == q as real * d as real;
    assert (q as real + 1.0) * d as real == q as real * d as real + d as real;
    QuotientWithin(n as real, d as real, q as real);
  }

  /** The score as one integer division: what it weighs, where its parts stop growing, and that halves round upward. */
  lemma ScoreInWholeNumbers(c: Counts)
    ensures
      var repeated := 4 * if c.clicks < 5 then c.clicks else 5;
      var learned := 3 * if c.quizPasses < 5 then c.quizPasses else 5;
      var rates := 60 * c.clicks + 40 * c.creds - 25 * c.reports;
      var score := repeated - learned + if c.sends == 0 then 0 else (2 * rates + c.sends) / (2 * c.sends);
      RiskScore(c) == if score < 0 then 0 else if score > 100 then 100 else score
  {
    var fixed := 4 * AtMostFive(c.clicks) - 3 * AtMostFive(c.quizPasses);
    if c.sends == 0 {
      RoundWhole(fixed);
    } else {
      var rates := 60 * c.clicks + 40 * c.creds - 25 * c.reports;
      RatesWeighed(c, rates);
      HalfUp(rates, c.sends);
      assert Score(c) == rates as real / c.sends as real + fixed as real;
    }
  }

  lemma RatesWeighed(c: Counts, weighed: int)
    requires c.sends > 0 && weighed == 60 * c.clicks + 40 * c.creds - 25 * c.reports
    ensures ClickPart(c) + SubmitPart(c) + ReportPart(c) == weighed as real / c.sends as real
  {
    var (x, y, z, d) := (c.clicks as real, c.creds as real, c.reports as real, c.sends as real);
    assert weighed as real == 60.0 * x + 40.0 * y - 25.0 * z;
    assert (60.0 * x + 40.0 * y - 25.0 * z) / d == x / d * 60.0 + y / d * 40.0 - z / d * 25.0;
  }

  lemma PartRounded(n: nat, sends: nat, weight: int)
    ensures Round(Rate(n, sends) * weight as real)
            == if sends == 0 then 0 else (2 * (weight * n) + sends) / (2 * sends)
  {
    if sends == 0 {
      RoundWhole(0);
    } else {
      var (x, d, w) := (n as real, sends as real, weight as real);
      assert (weight * n) as real == w * x;
      assert x / d * w == (w * x) / d;
      HalfUp(weight * n, sends);
    }
  }

  /** The points shown, in the order of the factors: click rate, submissions, repeat clicks, reports, quiz passes. */
  lemma PointsExact(c: Counts)
    ensures
      var p := Points(c);
      && |p| == 5
      && p[2] == 4 * (if c.clicks < 5 then c.clicks else 5)
      && p[4] == -3 * (if c.quizPasses < 5 then c.quizPasses else 5)
      && if c.sends == 0 then p[0] == p[1] == p[3] == 0
         else
           && p[0] == (120 * c.clicks + c.sends) / (2 * c.sends)
           && p[1] == (80 * c.creds + c.sends) / (2 * c.sends)
           && p[3] == (-50 * c.reports + c.sends) / (2 * c.sends)
  {
    PartRounded(c.clicks, c.sends, 60);
    PartRounded(c.creds, c.sends, 40);
    PartRounded(c.reports, c.sends, -25);
    assert ReportPart(c) == Rate(c.reports, c.sends) * -25.0;
    RoundWhole(4 * AtMostFive(c.clicks));
    RoundWhole(-3 * AtMostFive(c.quizPasses));
  }

  lemma QuotientIs(q: real, n: real, d: real)
    requires d > 0.0 && q * d == n
    ensures n / d == q
  {
  }

  lemma HalfUp(n: int, d: nat)
    requires d > 0
    ensures Round(n as real / d as real) == (2 * n + d) / (2 * d)
  {
    var (x, y) := (n as real, d as real);
    var q := x / y;
    assert q * y == x;
    assert (q + 0.5) * (2.0 * y) == 2.0 * (q * y) + y;
    QuotientIs(q + 0.5, 2.0 * x + y, 2.0 * y);
    FloorOfQuotient(2 * n + d, 2 * d);
    assert (2 * n + d) as real == 2.0 * x + y && (2 * d) as real == 2.0 * y;
  }

  // ---------- Counting: grouped, or one employee at a time ----------

  datatype SendRow = SendRow(employee: EmployeeId, sent: bool, clicked: bool, reported: bool, submitted: bool)

  datatype Attempt = Attempt(employee: EmployeeId, passed: bool)

  datatype Tables = Tables(employees: seq<Employee>, sends: seq<SendRow>, attempts: seq<Attempt>)

  function One(b: bool): nat {
    if b then 1 else 0
  }

  function CountSends(rows: seq<SendRow>, e: EmployeeId, wanted: SendRow -> bool): nat {
    if rows == [] then 0
    else CountSends(rows[..|rows| - 1], e, wanted) + One(rows[|rows| - 1].employee == e && wanted(rows[|rows| - 1]))
  }

  function CountPasses(rows: seq<Attempt>, e: EmployeeId): nat {
    if rows == [] then 0
    else CountPasses(rows[..|rows| - 1], e) + One(rows[|rows| - 1].employee == e && rows[|rows| - 1].passed)
  }

  function ScoreOne(t: Tables, e: Employee): EmployeeRisk {
    Assemble(e, Counts(
      CountSends(t.sends, e.id, (r: SendRow) => r.sent),
      CountSends(t.sends, e.id, (r: SendRow) => r.clicked),
      CountSends(t.sends, e.id, (r: SendRow) => r.reported),
      CountSends(t.sends, e.id, (r: SendRow) => r.submitted),
      CountPasses(t.attempts, e.id)))
  }

  /** The employee's own rows with a property, and the employee's passed attempts, by position. */
  function OwnSends(rows: seq<SendRow>, e: EmployeeId, wanted: SendRow -> bool): set<nat> {
    set i: nat | i < |rows| && rows[i].employee == e && wanted(rows[i])
  }

  function OwnPasses(rows: seq<Attempt>, e: EmployeeId): set<nat> {
    set i: nat | i < |rows| && rows[i].employee == e && rows[i].passed
  }

  lemma {:induction false} SendsCounted(rows: seq<SendRow>, e: EmployeeId, wanted: SendRow -> bool)
    ensures CountSends(rows, e, wanted) == |OwnSends(rows, e, wanted)|
    decreases |rows|
  {
    if rows != [] {
      var n := |rows| - 1;
      SendsCounted(rows[..n], e, wanted);
      assert OwnSends(rows, e, wanted) == if rows[n].employee == e && wanted(rows[n])
        then OwnSends(rows[..n], e, wanted) + {n} else OwnSends(rows[..n], e, wanted);
    }
  }

  lemma {:induction false} PassesCounted(rows: seq<Attempt>, e: EmployeeId)
    ensures CountPasses(rows, e) == |OwnPasses(rows, e)|
    decreases |rows|
  {
    if rows != [] {
      var n := |rows| - 1;
      PassesCounted(rows[..n], e);
      assert OwnPasses(rows, e) == if rows[n].employee == e && rows[n].passed
        then OwnPasses(rows[..n], e) + {n} else OwnPasses(rows[..n], e);
    }
  }

  /** What an employee's row says: how many of the employee's rows are sent, clicked, reported and submitted, how many
      quizzes are passed, which level the score reaches, and whether the employee clicked more than once. */
  lemma RowExact(t: Tables, e: Employee)
    ensures
      var row := ScoreOne(t, e);
      && row.employee == e
      && row.counts.sends == |OwnSends(t.sends, e.id, (r: SendRow) => r.sent)|
      && row.counts.clicks == |OwnSends(t.sends, e.id, (r: SendRow) => r.clicked)|
      && row.counts.reports == |OwnSends(t.sends, e.id, (r: SendRow) => r.reported)|
      && row.counts.creds == |OwnSends(t.sends, e.id, (r: SendRow) => r.submitted)|
      && row.counts.quizPasses == |OwnPasses(t.attempts, e.id)|
      && row.riskScore == RiskScore(row.counts) && row.points == Points(row.counts)
      && (row.riskLevel == Critical <==> 75 <= row.riskScore)
      && (row.riskLevel == High <==> 50 <= row.riskScore < 75)
      && (row.riskLevel == Moderate <==> 25 <= row.riskScore < 50)
      && (row.repeatClicker <==> row.counts.clicks > 1)
  {
    SendsCounted(t.sends, e.id, (r: SendRow) => r.sent);
    SendsCounted(t.sends, e.id, (r: SendRow) => r.clicked);
    SendsCounted(t.sends, e.id, (r: SendRow) => r.reported);
    SendsCounted(t.sends, e.id, (r: SendRow) => r.submitted);
    PassesCounted(t.attempts, e.id);
  }

  datatype SendCount = SendCount(sentAt: nat, clickedAt: nat, reportedAt: nat)

  function Get<V>(m: map<EmployeeId, V>, e: EmployeeId, default: V): V {
    if e in m then m[e] else default
  }

  /** The three grouped queries; a group exists for the employees that have a row in it. */
  function GroupSends(rows: seq<SendRow>): map<EmployeeId, SendCount> {
    if rows == [] then map[]
    else
      var (m, r) := (GroupSends(rows[..|rows| - 1]), rows[|rows| - 1]);
      var n := Get(m, r.employee, SendCount(0, 0, 0));
      m[r.employee := SendCount(n.sentAt + One(r.sent), n.clickedAt + One(r.clicked), n.reportedAt + One(r.reported))]
  }

  function GroupSubmissions(rows: seq<SendRow>): map<EmployeeId, nat> {
    if rows == [] then map[]
    else
      var (m, r) := (GroupSubmissions(rows[..|rows| - 1]), rows[|rows| - 1]);
      if r.submitted then m[r.employee := Get(m, r.employee, 0) + 1] else m
  }

  function GroupPasses(rows: seq<Attempt>): map<EmployeeId, nat> {
    if rows == [] then map[]
    else
      var (m, r) := (GroupPasses(rows[..|rows| - 1]), rows[|rows| - 1]);
      if r.passed then m[r.employee := Get(m, r.employee, 0) + 1] else m
  }

  lemma {:induction false} GroupSendsExact(rows: seq<SendRow>, e: EmployeeId)
    ensures Get(GroupSends(rows), e, SendCount(0, 0, 0)) == SendCount(
              CountSends(rows, e, (r: SendRow) => r.sent),
              CountSends(rows, e, (r: SendRow) => r.clicked),
              CountSends(rows, e, (r: SendRow) => r.reported))
    decreases |rows|
  {
    if rows != [] { GroupSendsExact(rows[..|rows| - 1], e); }
  }

  lemma {:induction false} GroupSubmissionsExact(rows: seq<SendRow>, e: EmployeeId)
    ensures Get(GroupSubmissions(rows), e, 0) == CountSends(rows, e, (r: SendRow) => r.submitted)
    decreases |rows|
  {
    if rows != [] { GroupSubmissionsExact(rows[..|rows| - 1], e); }
  }

  lemma {:induction false} GroupPassesExact(rows: seq<Attempt>, e: EmployeeId)
    ensures Get(GroupPasses(rows), e, 0) == CountPasses(rows, e)
    decreases |rows|
  {
    if rows != [] { GroupPassesExact(rows[..|rows| - 1], e); }
  }

  // ---------- Ranking ----------

  /** A stable sort by falling score: an element goes before the first one that scores less. */
  function Insert(r: EmployeeRisk, ranked: seq<EmployeeRisk>): seq<EmployeeRisk> {
    if ranked == [] || ranked[0].riskScore <= r.riskScore then [r] + ranked
    else [ranked[0]] + Insert(r, ranked[1..])
  }

  function Sorted(rows: seq<EmployeeRisk>): seq<EmployeeRisk> {
    if rows == [] then [] else Insert(rows[0], Sorted(rows[1..]))
  }

  function GroupedRow(t: Tables, e: Employee): EmployeeRisk {
    var s := Get(GroupSends(t.sends), e.id, SendCount(0, 0, 0));
    Assemble(e, Counts(s.sentAt, s.clickedAt, s.reportedAt, Get(GroupSubmissions(t.sends), e.id, 0),
        Get(GroupPasses(t.attempts), e.id, 0)))
  }

  function ScoreAll(t: Tables): seq<EmployeeRisk> {
    Sorted(seq(|t.employees|, i requires 0 <= i < |t.employees| => GroupedRow(t, t.employees[i])))
  }

  ghost predicate Descending(rows: seq<EmployeeRisk>) {
    forall i, j :: 0 <= i < j < |rows| ==> rows[i].riskScore >= rows[j].riskScore
  }

  /** The rows with a given score, in order. */
  function WithScore(rows: seq<EmployeeRisk>, score: int): seq<EmployeeRisk> {
    if rows == [] then []
    else if rows[0].riskScore == score then [rows[0]] + WithScore(rows[1..], score)
    else WithScore(rows[1..], score)
  }

  lemma {:induction false} InsertPermutes(r: EmployeeRisk, ranked: seq<EmployeeRisk>)
    ensures multiset(Insert(r, ranked)) == multiset(ranked) + multiset{r}
    decreases |ranked|
  {
    if ranked != [] {
      assert ranked == [ranked[0]] + ranked[1..];
      InsertPermutes(r, ranked[1..]);
    }
  }

  ghost predicate AtMost(rows: seq<EmployeeRisk>, bound: int) {
    forall i :: 0 <= i < |rows| ==> rows[i].riskScore <= bound
  }

  lemma {:induction false} InsertAtMost(r: EmployeeRisk, ranked: seq<EmployeeRisk>, bound: int)
    requires AtMost(ranked, bound) && r.riskScore <= bound
    ensures AtMost(Insert(r, ranked), bound)
    decreases |ranked|
  {
    if ranked != [] { InsertAtMost(r, ranked[1..], bound); }
  }

  lemma DescendsOn(first: EmployeeRisk, rest: seq<EmployeeRisk>)
    requires Descending(rest) && AtMost(rest, first.riskScore)
    ensures Descending([first] + rest)
  {
  }

  lemma {:induction false} InsertDescends(r: EmployeeRisk, ranked: seq<EmployeeRisk>)
    requires Descending(ranked)
    ensures Descending(Insert(r, ranked))
    decreases |ranked|
  {
    if ranked != [] && ranked[0].riskScore > r.riskScore {
      InsertDescends(r, ranked[1..]);
      InsertAtMost(r, ranked[1..], ranked[0].riskScore);
      DescendsOn(ranked[0], Insert(r, ranked[1..]));
    }
  }

  lemma {:induction false} InsertStable(r: EmployeeRisk, ranked: seq<EmployeeRisk>, score: int)
    ensures WithScore(Insert(r, ranked), score) == if r.riskScore == score then [r] + WithScore(ranked, score)
        else WithScore(ranked, score)
    decreases |ranked|
  {
    if ranked == [] || ranked[0].riskScore <= r.riskScore {
      assert ([r] + ranked)[1..] == ranked;
    } else {
      InsertStable(r, ranked[1..], score);
      assert ([ranked[0]] + Insert(r, ranked[1..]))[1..] == Insert(r, ranked[1..]);
    }
  }

  lemma {:induction false} SortedDescends(rows: seq<EmployeeRisk>)
    ensures Descending(Sorted(rows)) && multiset(Sorted(rows)) == multiset(rows)
    decreases |rows|
  {
    if rows != [] {
      SortedDescends(rows[1..]);
      InsertPermutes(rows[0], Sorted(rows[1..]));
      InsertDescends(rows[0], Sorted(rows[1..]));
      assert rows == [rows[0]] + rows[1..];
    }
  }

  lemma {:induction false} SortedStable(rows: seq<EmployeeRisk>, score: int)
    ensures WithScore(Sorted(rows), score) == WithScore(rows, score)
    decreases |rows|
  {
    if rows != [] {
      SortedStable(rows[1..], score);
      InsertStable(rows[0], Sorted(rows[1..]), score);
    }
  }

  /** The list is exactly everybody's own score, computed one by one, in falling order, ties in roster order. */
  lemma ScoreAllRanksScoreOne(t: Tables, score: int)
    ensures
      var one := seq(|t.employees|, i requires 0 <= i < |t.employees| => ScoreOne(t, t.employees[i]));
      && multiset(ScoreAll(t)) == multiset(one)
      && Descending(ScoreAll(t))
      && WithScore(ScoreAll(t), score) == WithScore(one, score)
  {
    var grouped := seq(|t.employees|, i requires 0 <= i < |t.employees| => GroupedRow(t, t.employees[i]));
    var one := seq(|t.employees|, i requires 0 <= i < |t.employees| => ScoreOne(t, t.employees[i]));
    forall i | 0 <= i < |t.employees| ensures grouped[i] == one[i] {
      GroupSendsExact(t.sends, t.employees[i].id);
      GroupSubmissionsExact(t.sends, t.employees[i].id);
      GroupPassesExact(t.attempts, t.employees[i].id);
    }
    assert grouped == one;
    SortedDescends(grouped);
    SortedStable(grouped, score);
  }
}
