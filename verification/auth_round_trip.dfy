/**
 Printing an Authentication-Results value (section 2.2 of RFC 8601) and parsing it again: the parser gives the
 records back exactly when a space stands before every property.
 */
module AuthRoundTrip {
  import opened Wrappers
  import opened Text
  import opened AuthComments
  import opened AuthResults

  // ---------- Printing ----------

  /** What may stand between tokens: spaces, other white space (a folded header has some), and balanced comments. */
  datatype GapItem = Blank | White(c: char) | Note(items: seq<CommentItem>)

  type Gap = seq<GapItem>

  /** A property's value is written bare or as a quoted string. */
  datatype Prop = Prop(gap: Gap, key: string, quoted: bool, value: string)

  datatype Record = Record(before: Gap, method_: string, result: string, props: seq<Prop>, after: Gap)

  datatype Doc = Doc(before: Gap, authserv: string, after: Gap, records: seq<Record>)

  function ItemText(item: GapItem): string {
    match item
    case Blank => " "
    case White(c) => [c]
    case Note(items) => "(" + CommentText(items) + ")"
  }

  function GapText(g: Gap): string {
    if g == [] then "" else ItemText(g[0]) + GapText(g[1..])
  }

  function Visible(item: GapItem): string {
    if item.Note? then "" else ItemText(item)
  }

  /** The gap without its comments. */
  function Whites(g: Gap): string {
    if g == [] then "" else Visible(g[0]) + Whites(g[1..])
  }

  function Items(value: string): seq<QuotedItem> {
    if value == "" then []
    else
      [if value[0] == '"' || value[0] == '\\' then QuotedPair(value[0]) else QuotedChar(value[0])] + Items(value[1..])
  }

  /** The value as a quoted string, its quotes and backslashes escaped. */
  function Quoted(value: string): string {
    "\"" + QuotedText(Items(value)) + "\""
  }

  function Spelled(p: Prop): string {
    if p.quoted then Quoted(p.value) else p.value
  }

  function Token(p: Prop): string {
    p.key + "=" + Spelled(p)
  }

  function PropsText(ps: seq<Prop>): string {
    if ps == [] then "" else GapText(ps[0].gap) + Token(ps[0]) + PropsText(ps[1..])
  }

  function Name(r: Record): string {
    r.method_ + "=" + r.result
  }

  function RecordText(r: Record): string {
    ";" + GapText(r.before) + Name(r) + (PropsText(r.props) + GapText(r.after))
  }

  function RecordsText(rs: seq<Record>): string {
    if rs == [] then "" else RecordText(rs[0]) + RecordsText(rs[1..])
  }

  function DocText(d: Doc): string {
    GapText(d.before) + d.authserv + GapText(d.after) + RecordsText(d.records)
  }

  /** The same text without its comments. */
  function PropsClean(ps: seq<Prop>): string {
    if ps == [] then "" else Whites(ps[0].gap) + Token(ps[0]) + PropsClean(ps[1..])
  }

  function Core(r: Record): string {
    Name(r) + PropsClean(r.props)
  }

  function Body(r: Record): string {
    Whites(r.before) + Core(r) + Whites(r.after)
  }

  function RecordsClean(rs: seq<Record>): string {
    if rs == [] then "" else ";" + Body(rs[0]) + RecordsClean(rs[1..])
  }

  function Head(d: Doc): string {
    Whites(d.before) + d.authserv + Whites(d.after)
  }

  // ---------- Which documents are meant ----------

  /** A lower-case character that none of the scanners treats specially. */
  predicate SafeChar(c: char) {
    && !IsSpace(c) && LowerChar(c) == c
    && c != ';' && c != '=' && c != '"' && c != '\\' && c != '(' && c != ')'
  }

  predicate Safe(s: string) {
    forall i :: 0 <= i < |s| ==> SafeChar(s[i])
  }

  /** A bare value may hold equals signs: only the first one of a token counts. */
  predicate BareValue(s: string) {
    forall i :: 0 <= i < |s| ==> SafeChar(s[i]) || s[i] == '='
  }

  predicate GapOk(g: Gap) {
    forall i :: 0 <= i < |g| ==> ItemOk(g[i])
  }

  predicate ItemOk(item: GapItem) {
    match item
    case Blank => true
    case White(c) => IsSpace(c) && c != ' '
    case Note(items) => CommentOk(items)
  }

  /** A quoted value is any lower-case text. */
  predicate PropOk(p: Prop) {
    GapOk(p.gap) && Safe(p.key) && if p.quoted then Lower(p.value) == p.value else BareValue(p.value)
  }

  ghost predicate PropsOk(ps: seq<Prop>) {
    forall i :: 0 <= i < |ps| ==> PropOk(ps[i])
  }

  ghost predicate RecordOk(r: Record) {
    GapOk(r.before) && GapOk(r.after) && Safe(r.method_) && Safe(r.result) && PropsOk(r.props)
  }

  ghost predicate RecordsOk(rs: seq<Record>) {
    forall i :: 0 <= i < |rs| ==> RecordOk(rs[i])
  }

  ghost predicate DocOk(d: Doc) {
    GapOk(d.before) && GapOk(d.after) && Safe(d.authserv) && d.authserv != "" && RecordsOk(d.records)
  }

  /** The gap before the property holds a space, whatever else it holds. */
  predicate Spaced(p: Prop) {
    Blank in p.gap
  }

  ghost predicate AllSpaced(ps: seq<Prop>) {
    forall i :: 0 <= i < |ps| ==> Spaced(ps[i])
  }

  ghost predicate NoneSpaced(ps: seq<Prop>) {
    forall i :: 0 <= i < |ps| ==> !Spaced(ps[i])
  }

  ghost predicate RecordsSpaced(rs: seq<Record>) {
    forall i :: 0 <= i < |rs| ==> AllSpaced(rs[i].props)
  }

  /** No two properties share a name, and none is called __proto__. */
  ghost predicate Distinct(ps: seq<Prop>) {
    && (forall i, j :: 0 <= i < j < |ps| ==> ps[i].key != ps[j].key)
    && (forall i :: 0 <= i < |ps| ==> ps[i].key != "__proto__")
  }

  ghost predicate RecordsDistinct(rs: seq<Record>) {
    forall i :: 0 <= i < |rs| ==> Distinct(rs[i].props)
  }

  // ---------- What a document means ----------

  /** The properties as the parser's object holds them: a later one wins, and __proto__ is not kept. */
  function PropsOf(props: Props, ps: seq<Prop>): Props
    decreases |ps|
  {
    if ps == [] then props else PropsOf(SetProp(props, ps[0].key, ps[0].value), ps[1..])
  }

  function Meaning(r: Record): Resinfo {
    Resinfo(r.method_, r.result, PropsOf(map[], r.props))
  }

  function Meanings(rs: seq<Record>): seq<Resinfo> {
    if rs == [] then [] else [Meaning(rs[0])] + Meanings(rs[1..])
  }

  // ---------- Comments go ----------

  /** The scan, outside quotes and comments, turns the text into its visible part. */
  predicate Shows(text: string, visible: string, out: string) {
    Run(Scan(Plain, out), text) == Scan(Plain, out + visible)
  }

  lemma ShowsBoth(a: string, va: string, b: string, vb: string, out: string)
    requires Shows(a, va, out) && Shows(b, vb, out + va)
    ensures Shows(a + b, va + vb, out)
  {
    RunAppend(Scan(Plain, out), a, b);
    Assoc(out, va, vb);
  }

  lemma ShowsNothing(out: string)
    ensures Shows("", "", out)
  {
    assert out + "" == out;
  }

  lemma ItemShows(item: GapItem, out: string)
    requires ItemOk(item)
    ensures Shows(ItemText(item), Visible(item), out)
  {
    match item
    case Blank => RunChar(Scan(Plain, out), ' ');
    case White(c) => RunChar(Scan(Plain, out), c);
    case Note(items) =>
      RunParens(items, Scan(Plain, out));
      assert out + "" == out;
  }

  lemma {:induction false} GapShows(g: Gap, out: string)
    requires GapOk(g)
    ensures Shows(GapText(g), Whites(g), out)
    decreases |g|
  {
    if g == [] {
      ShowsNothing(out);
    } else {
      ItemShows(g[0], out);
      GapShows(g[1..], out + Visible(g[0]));
      ShowsBoth(ItemText(g[0]), Visible(g[0]), GapText(g[1..]), Whites(g[1..]), out);
    }
  }

  lemma {:induction false} NameShows(s: string, out: string)
    requires forall i :: 0 <= i < |s| ==> s[i] != '"' && s[i] != '\\' && s[i] != '(' && s[i] != ')'
    ensures Shows(s, s, out)
    decreases |s|
  {
    if s == "" {
      ShowsNothing(out);
    } else {
      RunChar(Scan(Plain, out), s[0]);
      NameShows(s[1..], out + [s[0]]);
      ShowsBoth([s[0]], [s[0]], s[1..], s[1..], out);
      assert [s[0]] + s[1..] == s;
    }
  }

  lemma {:induction false} ItemsOk(value: string)
    ensures QuotedOk(Items(value))
    decreases |value|
  {
    if value != "" { ItemsOk(value[1..]); }
  }

  lemma SpelledShows(p: Prop, out: string)
    requires PropOk(p)
    ensures Shows(Spelled(p), Spelled(p), out)
  {
    if p.quoted {
      ItemsOk(p.value);
      RunPiece(QuotedString(Items(p.value)), out);
    } else {
      NameShows(p.value, out);
    }
  }

  lemma TokenShows(p: Prop, out: string)
    requires PropOk(p)
    ensures Shows(Token(p), Token(p), out)
  {
    NameShows(p.key + "=", out);
    SpelledShows(p, out + (p.key + "="));
    ShowsBoth(p.key + "=", p.key + "=", Spelled(p), Spelled(p), out);
  }

  lemma {:induction false} PropsShow(ps: seq<Prop>, out: string)
    requires PropsOk(ps)
    ensures Shows(PropsText(ps), PropsClean(ps), out)
    decreases |ps|
  {
    if ps == [] {
      ShowsNothing(out);
    } else {
      var p, rest := ps[0], ps[1..];
      GapShows(p.gap, out);
      TokenShows(p, out + Whites(p.gap));
      ShowsBoth(GapText(p.gap), Whites(p.gap), Token(p), Token(p), out);
      PropsShow(rest, out + (Whites(p.gap) + Token(p)));
      ShowsBoth(GapText(p.gap) + Token(p), Whites(p.gap) + Token(p), PropsText(rest), PropsClean(rest), out);
    }
  }

  lemma RecordStartShows(r: Record, out: string)
    requires RecordOk(r)
    ensures Shows(";" + GapText(r.before) + Name(r), ";" + Whites(r.before) + Name(r), out)
  {
    NameShows(";", out);
    GapShows(r.before, out + ";");
    ShowsBoth(";", ";", GapText(r.before), Whites(r.before), out);
    NameShows(Name(r), out + (";" + Whites(r.before)));
    ShowsBoth(";" + GapText(r.before), ";" + Whites(r.before), Name(r), Name(r), out);
  }

  lemma RecordEndShows(r: Record, out: string)
    requires RecordOk(r)
    ensures Shows(PropsText(r.props) + GapText(r.after), PropsClean(r.props) + Whites(r.after), out)
  {
    PropsShow(r.props, out);
    GapShows(r.after, out + PropsClean(r.props));
    ShowsBoth(PropsText(r.props), PropsClean(r.props), GapText(r.after), Whites(r.after), out);
  }

  lemma RecordShows(r: Record, out: string)
    requires RecordOk(r)
    ensures Shows(RecordText(r), ";" + Body(r), out)
  {
    var start := ";" + Whites(r.before) + Name(r);
    RecordStartShows(r, out);
    RecordEndShows(r, out + start);
    ShowsBoth(";" + GapText(r.before) + Name(r), start,
              PropsText(r.props) + GapText(r.after), PropsClean(r.props) + Whites(r.after), out);
    Regather(";", Whites(r.before), Name(r), PropsClean(r.props), Whites(r.after));
  }

  lemma Regather(a: string, b: string, c: string, d: string, e: string)
    ensures a + b + c + (d + e) == a + (b + (c + d) + e)
  {
  }

  lemma {:induction false} RecordsShow(rs: seq<Record>, out: string)
    requires RecordsOk(rs)
    ensures Shows(RecordsText(rs), RecordsClean(rs), out)
    decreases |rs|
  {
    if rs == [] {
      ShowsNothing(out);
    } else {
      RecordShows(rs[0], out);
      RecordsShow(rs[1..], out + (";" + Body(rs[0])));
      ShowsBoth(RecordText(rs[0]), ";" + Body(rs[0]), RecordsText(rs[1..]), RecordsClean(rs[1..]), out);
    }
  }

  lemma HeadShows(d: Doc)
    requires DocOk(d)
    ensures Shows(GapText(d.before) + d.authserv + GapText(d.after), Head(d), "")
  {
    GapShows(d.before, "");
    NameShows(d.authserv, "" + Whites(d.before));
    ShowsBoth(GapText(d.before), Whites(d.before), d.authserv, d.authserv, "");
    GapShows(d.after, "" + (Whites(d.before) + d.authserv));
    ShowsBoth(GapText(d.before) + d.authserv, Whites(d.before) + d.authserv, GapText(d.after), Whites(d.after), "");
  }

  lemma DocStripped(d: Doc)
    requires DocOk(d)
    ensures Stripped(DocText(d)) == Some(Head(d) + RecordsClean(d.records))
  {
    HeadShows(d);
    RecordsShow(d.records, "" + Head(d));
    ShowsBoth(GapText(d.before) + d.authserv + GapText(d.after), Head(d),
              RecordsText(d.records), RecordsClean(d.records), "");
    assert "" + (Head(d) + RecordsClean(d.records)) == Head(d) + RecordsClean(d.records);
  }

  // ---------- Splitting finds the separators ----------

  /** The text holds no separator outside quotes, and leaves the splitter outside quotes. */
  predicate Solid(t: string, sep: char, s: Split) {
    SplitRun(s, t, sep) == Split(s.parts, s.cur + t, Outside)
  }

  lemma {:induction false} SplitAppend(s: Split, a: string, b: string, sep: char)
    ensures SplitRun(s, a + b, sep) == SplitRun(SplitRun(s, a, sep), b, sep)
    decreases |a|
  {
    if a == "" {
      assert a + b == b;
    } else {
      assert (a + b)[1..] == a[1..] + b;
      SplitAppend(SplitStep(s, a[0], sep), a[1..], b, sep);
    }
  }

  lemma SolidBoth(a: string, b: string, sep: char, s: Split)
    requires Solid(a, sep, s) && Solid(b, sep, Split(s.parts, s.cur + a, Outside))
    ensures Solid(a + b, sep, s)
  {
    SplitAppend(s, a, b, sep);
    Assoc(s.cur, a, b);
  }

  lemma {:induction false} NameSolid(t: string, sep: char, s: Split)
    requires s.mode == Outside && forall i :: 0 <= i < |t| ==> t[i] != '"' && t[i] != sep
    ensures Solid(t, sep, s)
    decreases |t|
  {
    if t == "" {
      assert s.cur + "" == s.cur;
    } else {
      NameSolid(t[1..], sep, Split(s.parts, s.cur + [t[0]], Outside));
      Assoc(s.cur, [t[0]], t[1..]);
      assert [t[0]] + t[1..] == t;
    }
  }

  lemma {:induction false} ItemsSolid(value: string, sep: char, s: Split)
    requires s.mode == Inside
    ensures SplitRun(s, QuotedText(Items(value)), sep) == Split(s.parts, s.cur + QuotedText(Items(value)), Inside)
    decreases |value|
  {
    if value == "" {
      assert s.cur + "" == s.cur;
    } else {
      var head := if value[0] == '"' || value[0] == '\\' then ['\\', value[0]] else [value[0]];
      var rest := QuotedText(Items(value[1..]));
      assert Items(value)[1..] == Items(value[1..]);
      assert QuotedText(Items(value)) == head + rest;
      HeadSolid(value[0], head, sep, s);
      SplitAppend(s, head, rest, sep);
      ItemsSolid(value[1..], sep, Split(s.parts, s.cur + head, Inside));
      Assoc(s.cur, head, rest);
    }
  }

  lemma HeadSolid(c: char, head: string, sep: char, s: Split)
    requires s.mode == Inside && head == if c == '"' || c == '\\' then ['\\', c] else [c]
    ensures SplitRun(s, head, sep) == Split(s.parts, s.cur + head, Inside)
  {
    if |head| == 2 {
      assert head == ['\\'] + [c];
      SplitAppend(s, ['\\'], [c], sep);
      SplitOne(s, '\\', sep);
      SplitOne(Split(s.parts, s.cur + ['\\'], InsideEscape), c, sep);
      Assoc(s.cur, ['\\'], [c]);
    } else {
      SplitOne(s, c, sep);
    }
  }

  lemma SplitOne(s: Split, c: char, sep: char)
    ensures SplitRun(s, [c], sep) == SplitStep(s, c, sep)
  {
    assert [c][1..] == "";
  }

  lemma QuotedSolid(value: string, sep: char, s: Split)
    requires s.mode == Outside
    ensures Solid(Quoted(value), sep, s)
  {
    var inner := QuotedText(Items(value));
    SplitAppend(s, "\"" + inner, "\"", sep);
    SplitAppend(s, "\"", inner, sep);
    SplitOne(s, '"', sep);
    ItemsSolid(value, sep, Split(s.parts, s.cur + "\"", Inside));
    SplitOne(Split(s.parts, s.cur + "\"" + inner, Inside), '"', sep);
    Assoc(s.cur, "\"", inner);
    Assoc(s.cur, "\"" + inner, "\"");
  }

  predicate IsSeparator(sep: char) {
    sep == ';' || sep == ' '
  }

  lemma TokenSolid(p: Prop, sep: char, s: Split)
    requires PropOk(p) && s.mode == Outside && IsSeparator(sep)
    ensures Solid(Token(p), sep, s)
  {
    var s1 := Split(s.parts, s.cur + (p.key + "="), Outside);
    SafeSolid(p.key + "=", sep, s);
    if p.quoted { QuotedSolid(p.value, sep, s1); } else { SafeSolid(p.value, sep, s1); }
    SolidBoth(p.key + "=", Spelled(p), sep, s);
  }

  lemma SafeSolid(t: string, sep: char, s: Split)
    requires BareValue(t) && s.mode == Outside && IsSeparator(sep)
    ensures Solid(t, sep, s)
  {
    assert IsSpace(' ');
    NameSolid(t, sep, s);
  }

  lemma {:induction false} WhitesAreSpaces(g: Gap)
    requires GapOk(g)
    ensures forall i :: 0 <= i < |Whites(g)| ==> IsSpace(Whites(g)[i])
    ensures ' ' in Whites(g) <==> Blank in g
    decreases |g|
  {
    if g != [] {
      WhitesAreSpaces(g[1..]);
      assert Blank in g <==> g[0] == Blank || Blank in g[1..];
      assert ' ' in Whites(g) <==> ' ' in Visible(g[0]) || ' ' in Whites(g[1..]);
    }
  }

  /** White space is no separator of records, and none of tokens unless it holds a space. */
  lemma WhitesSolid(g: Gap, sep: char, s: Split)
    requires GapOk(g) && s.mode == Outside && (sep == ';' || (sep == ' ' && Blank !in g))
    ensures Solid(Whites(g), sep, s)
  {
    WhitesAreSpaces(g);
    NameSolid(Whites(g), sep, s);
  }

  lemma PropSolid(p: Prop, sep: char, s: Split)
    requires s.mode == Outside && PropOk(p) && (sep == ';' || (sep == ' ' && !Spaced(p)))
    ensures Solid(Whites(p.gap) + Token(p), sep, s)
  {
    WhitesSolid(p.gap, sep, s);
    TokenSolid(p, sep, Split(s.parts, s.cur + Whites(p.gap), Outside));
    SolidBoth(Whites(p.gap), Token(p), sep, s);
  }

  lemma {:induction false} PropsSolid(ps: seq<Prop>, sep: char, s: Split)
    requires s.mode == Outside && PropsOk(ps) && (sep == ';' || (sep == ' ' && NoneSpaced(ps)))
    ensures Solid(PropsClean(ps), sep, s)
    decreases |ps|
  {
    if ps == [] {
      assert s.cur + "" == s.cur;
    } else {
      var text := Whites(ps[0].gap) + Token(ps[0]);
      PropSolid(ps[0], sep, s);
      PropsSolid(ps[1..], sep, Split(s.parts, s.cur + text, Outside));
      SolidBoth(text, PropsClean(ps[1..]), sep, s);
    }
  }

  lemma NameTextSolid(r: Record, sep: char, s: Split)
    requires s.mode == Outside && RecordOk(r) && IsSeparator(sep)
    ensures Solid(Name(r), sep, s)
  {
    SafeSolid(Name(r), sep, s);
  }

  lemma CoreSolid(r: Record, sep: char, s: Split)
    requires s.mode == Outside && RecordOk(r) && (sep == ';' || (sep == ' ' && NoneSpaced(r.props)))
    ensures Solid(Core(r), sep, s)
  {
    NameTextSolid(r, sep, s);
    PropsSolid(r.props, sep, Split(s.parts, s.cur + Name(r), Outside));
    SolidBoth(Name(r), PropsClean(r.props), sep, s);
  }

  lemma BodySolid(r: Record, s: Split)
    requires s.mode == Outside && RecordOk(r)
    ensures Solid(Body(r), ';', s)
  {
    var start := Whites(r.before) + Core(r);
    WhitesSolid(r.before, ';', s);
    CoreSolid(r, ';', Split(s.parts, s.cur + Whites(r.before), Outside));
    SolidBoth(Whites(r.before), Core(r), ';', s);
    WhitesSolid(r.after, ';', Split(s.parts, s.cur + start, Outside));
    SolidBoth(start, Whites(r.after), ';', s);
  }

  function Bodies(rs: seq<Record>): seq<string> {
    if rs == [] then [] else [Body(rs[0])] + Bodies(rs[1..])
  }

  /** A semicolon closes the part before it and starts the next record's. */
  lemma RecordSplit(r: Record, s: Split)
    requires s.mode == Outside && RecordOk(r)
    ensures SplitRun(s, ";" + Body(r), ';') == Split(Parts(s), Body(r), Outside)
  {
    SplitAppend(s, ";", Body(r), ';');
    SplitOne(s, ';', ';');
    BodySolid(r, Split(Parts(s), "", Outside));
    assert "" + Body(r) == Body(r);
  }

  lemma {:induction false} RecordsSplit(rs: seq<Record>, s: Split)
    requires s.mode == Outside && RecordsOk(rs)
    ensures Parts(SplitRun(s, RecordsClean(rs), ';')) == Parts(s) + Bodies(rs)
    decreases |rs|
  {
    if rs != [] {
      RecordSplit(rs[0], s);
      SplitAppend(s, ";" + Body(rs[0]), RecordsClean(rs[1..]), ';');
      RecordsSplit(rs[1..], Split(Parts(s), Body(rs[0]), Outside));
      Regroup(Parts(s), Body(rs[0]), Bodies(rs[1..]));
    }
  }

  lemma Regroup(before: seq<string>, part: string, after: seq<string>)
    ensures before + [part] + after == before + ([part] + after)
  {
  }

  lemma DocSplit(d: Doc)
    requires DocOk(d)
    ensures SplitOutside(Head(d) + RecordsClean(d.records), ';') == [Head(d)] + Bodies(d.records)
  {
    WhitesAreSpaces(d.before);
    WhitesAreSpaces(d.after);
    NameSolid(Head(d), ';', NO_PARTS);
    assert "" + Head(d) == Head(d);
    SplitAppend(NO_PARTS, Head(d), RecordsClean(d.records), ';');
    RecordsSplit(d.records, Split([], Head(d), Outside));
  }

  // ---------- Trimming ----------

  /** The text is not empty and ends in something other than white space. */
  predicate Inked(s: string) {
    s != "" && !IsSpace(s[|s| - 1])
  }

  lemma QuotedEnds(value: string)
    ensures |Quoted(value)| >= 2 && Quoted(value)[0] == '"' && Quoted(value)[|Quoted(value)| - 1] == '"'
    ensures Quoted(value)[1..|Quoted(value)| - 1] == QuotedText(Items(value))
  {
  }

  lemma TokenTrimmed(p: Prop)
    requires PropOk(p)
    ensures Inked(Token(p)) && Trimmed(Token(p))
  {
    QuotedEnds(p.value);
    assert Token(p)[|Token(p)| - 1] == if Spelled(p) == "" then '=' else Spelled(p)[|Spelled(p)| - 1];
    assert Token(p)[0] == if p.key == "" then '=' else p.key[0];
  }

  lemma {:induction false} PropsInked(ps: seq<Prop>)
    requires ps != [] && PropsOk(ps)
    ensures Inked(PropsClean(ps))
    decreases |ps|
  {
    TokenTrimmed(ps[0]);
    if |ps| > 1 {
      PropsInked(ps[1..]);
    } else {
      assert PropsClean(ps[1..]) == "";
      assert PropsClean(ps) == Whites(ps[0].gap) + Token(ps[0]);
    }
  }

  lemma NameTrimmed(r: Record)
    requires RecordOk(r)
    ensures Inked(Name(r)) && Trimmed(Name(r))
  {
    assert Name(r)[0] == if r.method_ == "" then '=' else r.method_[0];
    assert Name(r)[|Name(r)| - 1] == if r.result == "" then '=' else r.result[|r.result| - 1];
  }

  lemma CoreTrimmed(r: Record)
    requires RecordOk(r)
    ensures Core(r) != "" && Trimmed(Core(r))
  {
    NameTrimmed(r);
    assert Core(r)[0] == Name(r)[0];
    if r.props == [] {
      assert Core(r) == Name(r);
    } else {
      PropsInked(r.props);
    }
  }

  function Cores(rs: seq<Record>): (cores: seq<string>)
    ensures |cores| == |rs|
  {
    if rs == [] then [] else [Core(rs[0])] + Cores(rs[1..])
  }

  lemma {:induction false} BodiesTrim(rs: seq<Record>)
    requires RecordsOk(rs)
    ensures NonEmptyTrimmed(Bodies(rs)) == Cores(rs)
    decreases |rs|
  {
    if rs != [] {
      CoreTrimmed(rs[0]);
      WhitesAreSpaces(rs[0].before);
      WhitesAreSpaces(rs[0].after);
      TrimAround(Whites(rs[0].before), Core(rs[0]), Whites(rs[0].after));
      assert Bodies(rs)[1..] == Bodies(rs[1..]);
      BodiesTrim(rs[1..]);
    }
  }

  lemma DocParts(d: Doc)
    requires DocOk(d)
    ensures NonEmptyTrimmed(SplitOutside(Head(d) + RecordsClean(d.records), ';')) == [d.authserv] + Cores(d.records)
  {
    DocSplit(d);
    WhitesAreSpaces(d.before);
    WhitesAreSpaces(d.after);
    TrimAround(Whites(d.before), d.authserv, Whites(d.after));
    BodiesTrim(d.records);
    assert ([Head(d)] + Bodies(d.records))[1..] == Bodies(d.records);
  }

  // ---------- Tokens ----------

  function Tokens(ps: seq<Prop>): seq<string> {
    if ps == [] then [] else [Token(ps[0])] + Tokens(ps[1..])
  }

  /** The tokens that a splitting leaves. */
  function Kept(s: Split): seq<string> {
    NonEmptyTrimmed(Parts(s))
  }

  lemma {:induction false} TrimmedAppend(a: seq<string>, b: seq<string>)
    ensures NonEmptyTrimmed(a + b) == NonEmptyTrimmed(a) + NonEmptyTrimmed(b)
    decreases |a|
  {
    if a == [] {
      assert a + b == b;
    } else {
      assert (a + b)[1..] == a[1..] + b;
      TrimmedAppend(a[1..], b);
    }
  }

  lemma KeptIs(s: Split)
    ensures Kept(s) == NonEmptyTrimmed(s.parts) + if Trim(s.cur) == "" then [] else [Trim(s.cur)]
  {
    TrimmedAppend(s.parts, [s.cur]);
    assert [s.cur][1..] == [];
  }

  lemma SpacesTrim(w: string)
    requires forall i :: 0 <= i < |w| ==> IsSpace(w[i])
    ensures Trim(w) == ""
  {
    if w != "" { SpacesTrim(w[1..]); }
  }

  /** A gap with a space in it closes the current token, and leaves only white space behind. */
  lemma {:induction false} GapSplit(w: string, s: Split)
    requires s.mode == Outside && ' ' in w && forall i :: 0 <= i < |w| ==> IsSpace(w[i])
    ensures
      var s' := SplitRun(s, w, ' ');
      && s'.mode == Outside && (forall i :: 0 <= i < |s'.cur| ==> IsSpace(s'.cur[i]))
      && NonEmptyTrimmed(s'.parts) == Kept(s)
    decreases |w|
  {
    var rest := w[1..];
    if w[0] != ' ' {
      var s1 := Split(s.parts, s.cur + [w[0]], Outside);
      TrimTail(s.cur, w[0]);
      KeptIs(s);
      KeptIs(s1);
      GapSplit(rest, s1);
    } else if ' ' in rest {
      var s1 := Split(Parts(s), "", Outside);
      KeptIs(s1);
      GapSplit(rest, s1);
    } else {
      LastSpace(rest, s);
    }
  }

  lemma LastSpace(rest: string, s: Split)
    requires s.mode == Outside && ' ' !in rest && forall i :: 0 <= i < |rest| ==> IsSpace(rest[i])
    ensures
      var s' := SplitRun(Split(Parts(s), "", Outside), rest, ' ');
      s'.mode == Outside && s'.cur == rest && s'.parts == Parts(s)
  {
    NameSolid(rest, ' ', Split(Parts(s), "", Outside));
    assert "" + rest == rest;
  }

  /** So a spaced property adds exactly its token. */
  lemma SpacedProp(p: Prop, s: Split)
    requires s.mode == Outside && PropOk(p) && Spaced(p)
    ensures
      var s' := SplitRun(s, Whites(p.gap) + Token(p), ' ');
      s'.mode == Outside && Inked(s'.cur) && Kept(s') == Kept(s) + [Token(p)]
  {
    var s1 := SplitRun(s, Whites(p.gap), ' ');
    WhitesAreSpaces(p.gap);
    GapSplit(Whites(p.gap), s);
    SplitAppend(s, Whites(p.gap), Token(p), ' ');
    TokenSolid(p, ' ', s1);
    TokenTrimmed(p);
    TrimAround(s1.cur, Token(p), "");
    assert s1.cur + Token(p) + "" == s1.cur + Token(p);
    KeptIs(Split(s1.parts, s1.cur + Token(p), Outside));
  }

  lemma {:induction false} PropsTokens(ps: seq<Prop>, s: Split)
    requires s.mode == Outside && PropsOk(ps) && AllSpaced(ps)
    ensures Kept(SplitRun(s, PropsClean(ps), ' ')) == Kept(s) + Tokens(ps)
    decreases |ps|
  {
    if ps != [] {
      var text := Whites(ps[0].gap) + Token(ps[0]);
      var s' := SplitRun(s, text, ' ');
      SpacedProp(ps[0], s);
      SplitAppend(s, text, PropsClean(ps[1..]), ' ');
      PropsTokens(ps[1..], s');
      Regroup(Kept(s), Token(ps[0]), Tokens(ps[1..]));
    }
  }

  lemma NameKept(r: Record)
    requires RecordOk(r)
    ensures SplitRun(NO_PARTS, Name(r), ' ') == Split([], Name(r), Outside)
    ensures Kept(Split([], Name(r), Outside)) == [Name(r)]
  {
    NameTextSolid(r, ' ', NO_PARTS);
    assert "" + Name(r) == Name(r);
    NameTrimmed(r);
    TrimWhole(Name(r));
    KeptIs(Split([], Name(r), Outside));
  }

  lemma CoreTokens(r: Record)
    requires RecordOk(r) && AllSpaced(r.props)
    ensures NonEmptyTrimmed(SplitOutside(Core(r), ' ')) == [Name(r)] + Tokens(r.props)
  {
    NameKept(r);
    SplitAppend(NO_PARTS, Name(r), PropsClean(r.props), ' ');
    PropsTokens(r.props, Split([], Name(r), Outside));
  }

  // ---------- Values ----------

  lemma {:induction false} UnescapeItems(value: string)
    ensures Unescape(QuotedText(Items(value))) == value
    decreases |value|
  {
    if value != "" {
      var rest := QuotedText(Items(value[1..]));
      assert Items(value)[1..] == Items(value[1..]);
      UnescapeItems(value[1..]);
      if value[0] == '"' || value[0] == '\\' {
        assert QuotedText(Items(value)) == ['\\', value[0]] + rest;
        assert (['\\', value[0]] + rest)[2..] == rest;
      } else {
        assert QuotedText(Items(value)) == [value[0]] + rest;
        assert ([value[0]] + rest)[1..] == rest;
      }
    }
  }

  lemma UnquoteQuoted(value: string)
    ensures Unquote(Quoted(value)) == value
  {
    QuotedEnds(value);
    TrimWhole(Quoted(value));
    UnescapeItems(value);
  }

  lemma UnquoteBare(value: string)
    requires BareValue(value)
    ensures Unquote(value) == value && Lower(value) == value
  {
    if value != "" { TrimWhole(value); }
  }

  /** Written bare or quoted, the value comes back. */
  lemma UnquoteSpelled(p: Prop)
    requires PropOk(p)
    ensures Lower(Unquote(Spelled(p))) == p.value
  {
    if p.quoted { UnquoteQuoted(p.value); } else { UnquoteBare(p.value); }
  }

  lemma IndexAfter(name: string, rest: string)
    requires forall i :: 0 <= i < |name| ==> name[i] != '='
    ensures IndexOf(name + "=" + rest, '=') == |name|
  {
    var s := name + "=" + rest;
    assert s[|name|] == '=';
  }

  lemma SafeLower(s: string)
    requires Safe(s)
    ensures Lower(s) == s
  {
  }

  lemma TokenParsed(props: Props, p: Prop)
    requires PropOk(p)
    ensures AddProp(props, Token(p)) == SetProp(props, p.key, p.value)
  {
    IndexAfter(p.key, Spelled(p));
    assert Token(p)[..|p.key|] == p.key && Token(p)[|p.key| + 1..] == Spelled(p);
    SafeLower(p.key);
    UnquoteSpelled(p);
  }

  lemma {:induction false} TokensParsed(props: Props, ps: seq<Prop>)
    requires PropsOk(ps)
    ensures AddProps(props, Tokens(ps)) == PropsOf(props, ps)
    decreases |ps|
  {
    if ps != [] {
      TokenParsed(props, ps[0]);
      assert Tokens(ps)[1..] == Tokens(ps[1..]);
      TokensParsed(SetProp(props, ps[0].key, ps[0].value), ps[1..]);
    }
  }

  lemma CoreParsed(r: Record)
    requires RecordOk(r) && AllSpaced(r.props)
    ensures ParsePart(Core(r)) == Some(Meaning(r))
  {
    CoreTokens(r);
    IndexAfter(r.method_, r.result);
    assert Name(r)[..|r.method_|] == r.method_ && Name(r)[|r.method_| + 1..] == r.result;
    SafeLower(r.method_);
    SafeLower(r.result);
    assert ([Name(r)] + Tokens(r.props))[1..] == Tokens(r.props);
    TokensParsed(map[], r.props);
  }

  // ---------- Without a space ----------

  function SpacedCount(ps: seq<Prop>): (n: nat)
    ensures n <= |ps|
  {
    if ps == [] then 0 else (if Spaced(ps[0]) then 1 else 0) + SpacedCount(ps[1..])
  }

  lemma {:induction false} AllCounted(ps: seq<Prop>)
    ensures SpacedCount(ps) == |ps| ==> AllSpaced(ps)
    decreases |ps|
  {
    if ps != [] && SpacedCount(ps) == |ps| {
      AllCounted(ps[1..]);
      forall i | 0 <= i < |ps| ensures Spaced(ps[i]) {
        if i > 0 { assert Spaced(ps[1..][i - 1]); }
      }
    }
  }

  /** A property without a space before it makes no token of its own. */
  lemma AnyProp(p: Prop, s: Split)
    requires s.mode == Outside && PropOk(p) && Inked(s.cur)
    ensures
      var s' := SplitRun(s, Whites(p.gap) + Token(p), ' ');
      s'.mode == Outside && Inked(s'.cur) && |Kept(s')| <= |Kept(s)| + if Spaced(p) then 1 else 0
  {
    if Spaced(p) {
      SpacedProp(p, s);
    } else {
      PropSolid(p, ' ', s);
      TokenTrimmed(p);
      InkStays(s.cur);
      KeptIs(s);
      KeptIs(Split(s.parts, s.cur + (Whites(p.gap) + Token(p)), Outside));
    }
  }

  lemma InkStays(s: string)
    requires Inked(s)
    ensures Trim(s) != ""
  {
    LastStays(s);
  }

  lemma {:induction false} TokensAtMost(ps: seq<Prop>, s: Split)
    requires s.mode == Outside && PropsOk(ps) && Inked(s.cur)
    ensures |Kept(SplitRun(s, PropsClean(ps), ' '))| <= |Kept(s)| + SpacedCount(ps)
    decreases |ps|
  {
    if ps != [] {
      var text := Whites(ps[0].gap) + Token(ps[0]);
      AnyProp(ps[0], s);
      SplitAppend(s, text, PropsClean(ps[1..]), ' ');
      TokensAtMost(ps[1..], SplitRun(s, text, ' '));
    }
  }

  lemma {:induction false} AddPropsSize(props: Props, tokens: seq<string>)
    ensures |AddProps(props, tokens)| <= |props| + |tokens|
    decreases |tokens|
  {
    if tokens != [] { AddPropsSize(AddProp(props, tokens[0]), tokens[1..]); }
  }

  lemma {:induction false} PropsOfSize(props: Props, ps: seq<Prop>)
    requires Distinct(ps) && forall i :: 0 <= i < |ps| ==> ps[i].key !in props
    ensures |PropsOf(props, ps)| == |props| + |ps|
    decreases |ps|
  {
    if ps != [] {
      assert forall i :: 0 <= i < |ps[1..]| ==> ps[1..][i] == ps[i + 1];
      PropsOfSize(SetProp(props, ps[0].key, ps[0].value), ps[1..]);
    }
  }

  /** A record with distinct property names comes back exactly when each property has a space before it. */
  lemma CoreParsedIff(r: Record)
    requires RecordOk(r) && Distinct(r.props)
    ensures ParsePart(Core(r)) == Some(Meaning(r)) <==> AllSpaced(r.props)
  {
    if AllSpaced(r.props) {
      CoreParsed(r);
    } else {
      var tokens := NonEmptyTrimmed(SplitOutside(Core(r), ' '));
      NameKept(r);
      NameTrimmed(r);
      SplitAppend(NO_PARTS, Name(r), PropsClean(r.props), ' ');
      TokensAtMost(r.props, Split([], Name(r), Outside));
      AllCounted(r.props);
      PropsOfSize(map[], r.props);
      if tokens != [] { AddPropsSize(map[], tokens[1..]); }
    }
  }

  lemma {:induction false} PartsAtMost(parts: seq<string>)
    ensures |ParseParts(parts)| <= |parts|
    decreases |parts|
  {
    if parts != [] { PartsAtMost(parts[1..]); }
  }

  lemma {:induction false} CoresParsed(rs: seq<Record>)
    requires RecordsOk(rs) && RecordsSpaced(rs)
    ensures ParseParts(Cores(rs)) == Meanings(rs)
    decreases |rs|
  {
    if rs != [] {
      CoreParsed(rs[0]);
      assert Cores(rs)[1..] == Cores(rs[1..]);
      CoresParsed(rs[1..]);
    }
  }

  lemma {:induction false} CoresParsedIff(rs: seq<Record>)
    requires RecordsOk(rs) && RecordsDistinct(rs) && ParseParts(Cores(rs)) == Meanings(rs)
    ensures RecordsSpaced(rs)
    decreases |rs|
  {
    if rs != [] {
      var first, rest := ParsePart(Core(rs[0])), ParseParts(Cores(rs[1..]));
      assert Cores(rs)[1..] == Cores(rs[1..]);
      PartsAtMost(Cores(rs[1..]));
      MeaningsCount(rs);
      assert first.Some?;
      assert [first.value] + rest == [Meaning(rs[0])] + Meanings(rs[1..]);
      assert first.value == ([first.value] + rest)[0] && rest == ([first.value] + rest)[1..];
      CoreParsedIff(rs[0]);
      CoresParsedIff(rs[1..]);
      forall i | 0 <= i < |rs| ensures AllSpaced(rs[i].props) {
        if i > 0 { assert rs[i] == rs[1..][i - 1]; }
      }
    }
  }

  lemma {:induction false} MeaningsCount(rs: seq<Record>)
    ensures |Meanings(rs)| == |rs|
    decreases |rs|
  {
    if rs != [] { MeaningsCount(rs[1..]); }
  }

  lemma SwallowedToken(r: Record)
    requires RecordOk(r) && NoneSpaced(r.props)
    ensures NonEmptyTrimmed(SplitOutside(Core(r), ' ')) == [Core(r)]
  {
    CoreSolid(r, ' ', NO_PARTS);
    assert "" + Core(r) == Core(r);
    CoreTrimmed(r);
    TrimWhole(Core(r));
    KeptIs(Split([], Core(r), Outside));
  }

  /** When no property of a record has a space before it, all of them end up in the result. */
  lemma Swallowed(r: Record)
    requires RecordOk(r) && NoneSpaced(r.props)
    ensures ParsePart(Core(r)) == Some(Resinfo(r.method_, Lower(r.result + PropsClean(r.props)), map[]))
  {
    var rest := r.result + PropsClean(r.props);
    SwallowedToken(r);
    Assoc(r.method_ + "=", r.result, PropsClean(r.props));
    IndexAfter(r.method_, rest);
    CutAt(r.method_, rest);
    SafeLower(r.method_);
    assert [Core(r)][1..] == [];
  }

  lemma CutAt(name: string, rest: string)
    ensures (name + "=" + rest)[..|name|] == name && (name + "=" + rest)[|name| + 1..] == rest
  {
  }

  // ---------- The round trip ----------

  lemma NoSpaceFirst(s: string)
    requires Safe(s)
    ensures FirstSpace(s) == |s|
  {
  }

  /** Up to its records, every printed document parses. */
  lemma DocParsed(d: Doc)
    requires DocOk(d)
    ensures Parse(DocText(d)) == Parsed(Some(d.authserv), ParseParts(Cores(d.records)))
  {
    DocStripped(d);
    DocParts(d);
    NoSpaceFirst(d.authserv);
    assert d.authserv[..|d.authserv|] == d.authserv;
    SafeLower(d.authserv);
    assert ([d.authserv] + Cores(d.records))[1..] == Cores(d.records);
  }

  /**
   Printing records and parsing the text gives the records back: lower-case names without special characters,
   bare values of the same kind, quoted values with any lower-case text (semicolons, spaces, parentheses, quotes and
   backslashes included), and any white space and balanced comments between the tokens, as long as a space stands
   somewhere before every property.
   */
  lemma ParsePrint(d: Doc)
    requires DocOk(d) && RecordsSpaced(d.records)
    ensures Parse(DocText(d)) == Parsed(Some(d.authserv), Meanings(d.records))
  {
    DocParsed(d);
    CoresParsed(d.records);
  }

  /** That condition is exact when no record has two properties of one name, or one called __proto__. */
  lemma ParsePrintIff(d: Doc)
    requires DocOk(d) && RecordsDistinct(d.records)
    ensures Parse(DocText(d)) == Parsed(Some(d.authserv), Meanings(d.records)) <==> RecordsSpaced(d.records)
  {
    DocParsed(d);
    if RecordsSpaced(d.records) {
      CoresParsed(d.records);
    } else if ParseParts(Cores(d.records)) == Meanings(d.records) {
      CoresParsedIff(d.records);
    }
  }

  /** In a header of one record with one bare property and no space before it, whatever else the gap holds,
      the property joins the result and no property is found. */
  lemma JoinedTokens(d: Doc, r: Record, p: Prop)
    requires DocOk(d) && d.records == [r] && r.props == [p] && !p.quoted && !Spaced(p)
    ensures Parse(DocText(d))
            == Parsed(Some(d.authserv), [Resinfo(r.method_, r.result + (Whites(p.gap) + Token(p)), map[])])
  {
    DocParsed(d);
    Swallowed(r);
    OneCore(d, r);
    assert [p][1..] == [];
    assert PropsClean([p]) == Whites(p.gap) + Token(p);
    LowerAlready(r, p);
  }

  lemma OneCore(d: Doc, r: Record)
    requires d.records == [r] && ParsePart(Core(r)).Some?
    ensures ParseParts(Cores(d.records)) == [ParsePart(Core(r)).value]
  {
    assert d.records[1..] == [] && [Core(r)][1..] == [];
  }

  lemma LowerAlready(r: Record, p: Prop)
    requires RecordOk(r) && PropOk(p) && !p.quoted
    ensures Lower(r.result + (Whites(p.gap) + Token(p))) == r.result + (Whites(p.gap) + Token(p))
  {
    WhitesAreSpaces(p.gap);
  }

  /** One passing record with the sender's domain, after a tab or after a comment. */
  ghost predicate PassAfter(d: Doc, p: Prop, gap: string) {
    && DocOk(d) && |d.records| == 1 && d.records[0].props == [p]
    && d.authserv == "mx" && d.records[0].method_ == "dmarc" && d.records[0].result == "pass"
    && p.key == "header.from" && p.value == "a.b" && !p.quoted && GapText(p.gap) == gap
  }

  lemma PassAfterExists(folded: bool) returns (d: Doc, p: Prop)
    ensures PassAfter(d, p, if folded then "\t" else "()")
    ensures !Spaced(p) && Whites(p.gap) == if folded then "\t" else ""
  {
    var gap := JoiningGap(folded);
    SafeNames();
    p := Prop(gap, "header.from", false, "a.b");
    assert PropOk(p);
    var r := Record([], "dmarc", "pass", [p], []);
    assert RecordOk(r);
    d := Doc([], "mx", [], [r]);
  }

  lemma SafeNames()
    ensures Safe("mx") && Safe("dmarc") && Safe("pass") && Safe("header.from") && BareValue("a.b")
  {
  }

  /** So a header folded at a tab, or with only a comment between two tokens, loses the property. */
  lemma TabAndCommentJoin(folded: bool) returns (d: Doc, p: Prop)
    ensures PassAfter(d, p, if folded then "\t" else "()")
    ensures var result := d.records[0].result + ((if folded then "\t" else "") + Token(p));
            Parse(DocText(d)) == Parsed(Some(d.authserv), [Resinfo(d.records[0].method_, result, map[])])
  {
    d, p := PassAfterExists(folded);
    JoinedTokens(d, d.records[0], p);
  }

  lemma JoiningGap(folded: bool) returns (gap: Gap)
    ensures GapOk(gap) && !(Blank in gap)
    ensures GapText(gap) == if folded then "\t" else "()"
    ensures Whites(gap) == if folded then "\t" else ""
  {
    gap := [if folded then White('\t') else Note([])];
    assert gap[1..] == [];
  }

  /** With distinct names, the parsed object holds exactly the printed properties, except one named __proto__. */
  lemma {:induction false} PropsExact(props: Props, ps: seq<Prop>)
    requires forall i, j :: 0 <= i < j < |ps| ==> ps[i].key != ps[j].key
    requires forall i :: 0 <= i < |ps| ==> ps[i].key !in props
    ensures forall k :: k in PropsOf(props, ps) <==> k in props || (k != "__proto__" && HasKey(ps, k))
    ensures forall i :: 0 <= i < |ps| && ps[i].key != "__proto__" ==> Holds(PropsOf(props, ps), ps[i].key, ps[i].value)
    ensures forall k :: k in props ==> Holds(PropsOf(props, ps), k, props[k])
    decreases |ps|
  {
    if ps != [] {
      var next, rest := SetProp(props, ps[0].key, ps[0].value), ps[1..];
      assert forall i :: 0 <= i < |rest| ==> rest[i] == ps[i + 1];
      PropsExact(next, rest);
      forall k ensures HasKey(ps, k) <==> ps[0].key == k || HasKey(rest, k) {
        HasKeyNext(ps, k);
      }
      forall i | 0 <= i < |ps| && ps[i].key != "__proto__" ensures Holds(PropsOf(props, ps), ps[i].key, ps[i].value) {
        if i > 0 { assert rest[i - 1] == ps[i]; } else { assert ps[0].key in next; }
      }
    }
  }

  predicate Holds(props: Props, key: string, value: string) {
    key in props && props[key] == value
  }

  predicate HasKey(ps: seq<Prop>, k: string) {
    exists i :: 0 <= i < |ps| && ps[i].key == k
  }

  lemma HasKeyNext(ps: seq<Prop>, k: string)
    requires ps != []
    ensures HasKey(ps, k) <==> ps[0].key == k || HasKey(ps[1..], k)
  {
    if HasKey(ps[1..], k) {
      var i :| 0 <= i < |ps[1..]| && ps[1..][i].key == k;
      assert ps[i + 1].key == k;
    }
    if HasKey(ps, k) {
      var i :| 0 <= i < |ps| && ps[i].key == k;
      assert i == 0 || ps[1..][i - 1].key == k;
    }
  }
}
