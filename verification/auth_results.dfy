/**
 Parsing an Authentication-Results header value (section 2.2 of RFC 8601) into its records,
 and deciding from one header whether a sender is authenticated.
 */
module AuthResults {
  import opened Wrappers
  import opened Text
  import opened AuthComments

  // ---------- Splitting outside quoted strings ----------

  datatype SplitMode = Outside | Inside | InsideEscape

  datatype Split = Split(parts: seq<string>, cur: string, mode: SplitMode)

  function SplitStep(s: Split, c: char, sep: char): Split {
    match s.mode
    case Outside =>
      if c == '"' then Split(s.parts, s.cur + [c], Inside)
      else if c == sep then Split(s.parts + [s.cur], "", Outside)
      else Split(s.parts, s.cur + [c], Outside)
    case Inside =>
      if c == '\\' then Split(s.parts, s.cur + [c], InsideEscape)
      else if c == '"' then Split(s.parts, s.cur + [c], Outside)
      else Split(s.parts, s.cur + [c], Inside)
    case InsideEscape => Split(s.parts, s.cur + [c], Inside)
  }

  function SplitRun(s: Split, input: string, sep: char): Split
    decreases |input|
  {
    if input == "" then s else SplitRun(SplitStep(s, input[0], sep), input[1..], sep)
  }

  function Parts(s: Split): seq<string> {
    s.parts + [s.cur]
  }

  const NO_PARTS: Split := Split([], "", Outside)

  function SplitOutside(input: string, sep: char): seq<string> {
    Parts(SplitRun(NO_PARTS, input, sep))
  }

  method SplitOutsideQuotes(input: string, sep: char) returns (parts: seq<string>)
    ensures parts == SplitOutside(input, sep)
  {
    parts := [];
    var cur, inQuote := "", false;
    var i := 0;
    while i < |input|
      invariant i <= |input|
      invariant Parts(SplitRun(NO_PARTS, input, sep))
                == Parts(SplitRun(Split(parts, cur, if inQuote then Inside else Outside), input[i..], sep))
      decreases |input| - i
    {
      var c := input[i];
      assert input[i..][0] == c && input[i..][1..] == input[i + 1..];
      if inQuote {
        if c == '\\' {
          if i + 1 < |input| {
            assert input[i + 1..][0] == input[i + 1] && input[i + 1..][1..] == input[i + 2..];
            cur := cur + [c] + [input[i + 1]];
            i := i + 2;
          } else {
            cur := cur + [c];
            i := i + 1;
          }
          continue;
        }
        if c == '"' { inQuote := false; }
        cur := cur + [c];
      } else if c == '"' {
        inQuote := true;
        cur := cur + [c];
      } else if c == sep {
        parts := parts + [cur];
        cur := "";
      } else {
        cur := cur + [c];
      }
      i := i + 1;
    }
    parts := parts + [cur];
  }

  // ---------- The parser ----------

  type Props = map<string, string>

  datatype Resinfo = Resinfo(method_: string, result: string, props: Props)

  datatype Parsed = Parsed(authserv: Option<string>, results: seq<Resinfo>)

  predicate IsLineTerminator(c: char) {
    c == '\n' || c == '\r' || c as int == 0x2028 || c as int == 0x2029
  }

  /** replace(/\\(.)/g, '$1'): a backslash before anything but a line terminator goes. */
  function Unescape(s: string): string {
    if s == "" then ""
    else if s[0] == '\\' && |s| > 1 && !IsLineTerminator(s[1]) then [s[1]] + Unescape(s[2..])
    else [s[0]] + Unescape(s[1..])
  }

  function Unquote(v: string): string {
    var t := Trim(v);
    if |t| >= 2 && t[0] == '"' && t[|t| - 1] == '"' then Unescape(t[1..|t| - 1]) else t
  }

  /** Trims every part and drops the empty ones. */
  function NonEmptyTrimmed(parts: seq<string>): seq<string> {
    if parts == [] then []
    else if Trim(parts[0]) == "" then NonEmptyTrimmed(parts[1..])
    else [Trim(parts[0])] + NonEmptyTrimmed(parts[1..])
  }

  /** Assigning a property of a plain object: the name __proto__ sets no own property. */
  function SetProp(props: Props, key: string, value: string): Props {
    if key == "__proto__" then props else props[key := value]
  }

  function AddProp(props: Props, token: string): Props {
    var eq := IndexOf(token, '=');
    if eq == |token| then props else SetProp(props, Lower(token[..eq]), Lower(Unquote(token[eq + 1..])))
  }

  function AddProps(props: Props, tokens: seq<string>): Props
    decreases |tokens|
  {
    if tokens == [] then props else AddProps(AddProp(props, tokens[0]), tokens[1..])
  }

  function ParseTokens(tokens: seq<string>): Option<Resinfo> {
    if tokens == [] then None
    else
      var eq := IndexOf(tokens[0], '=');
      if eq == |tokens[0]| then None
      else Some(Resinfo(Lower(tokens[0][..eq]), Lower(tokens[0][eq + 1..]), AddProps(map[], tokens[1..])))
  }

  function ParsePart(part: string): Option<Resinfo> {
    ParseTokens(NonEmptyTrimmed(SplitOutside(part, ' ')))
  }

  function ParseParts(parts: seq<string>): seq<Resinfo> {
    if parts == [] then []
    else
      var r := ParsePart(parts[0]);
      (if r.Some? then [r.value] else []) + ParseParts(parts[1..])
  }

  function Parse(value: string): Parsed {
    var cleaned := Stripped(value);
    if cleaned.None? then Parsed(None, [])
    else
      var parts := NonEmptyTrimmed(SplitOutside(cleaned.value, ';'));
      if parts == [] then Parsed(None, [])
      else Parsed(Some(Lower(parts[0][..FirstSpace(parts[0])])), ParseParts(parts[1..]))
  }

  method TrimParts(parts: seq<string>) returns (out: seq<string>)
    ensures out == NonEmptyTrimmed(parts)
  {
    out := [];
    for i := 0 to |parts|
      invariant out + NonEmptyTrimmed(parts[i..]) == NonEmptyTrimmed(parts)
    {
      assert parts[i..][0] == parts[i] && parts[i..][1..] == parts[i + 1..];
      var t := Trim(parts[i]);
      if t != "" { out := out + [t]; }
    }
  }

  method ParseProps(tokens: seq<string>) returns (props: Props)
    ensures props == AddProps(map[], tokens)
  {
    props := map[];
    for i := 0 to |tokens|
      invariant AddProps(props, tokens[i..]) == AddProps(map[], tokens)
    {
      assert tokens[i..][0] == tokens[i] && tokens[i..][1..] == tokens[i + 1..];
      var eq := IndexOf(tokens[i], '=');
      if eq == |tokens[i]| { continue; }
      var key := Lower(tokens[i][..eq]);
      if key != "__proto__" {
        props := props[key := Lower(Unquote(tokens[i][eq + 1..]))];
      }
    }
  }

  method ParseResult(part: string) returns (r: Option<Resinfo>)
    ensures r == ParsePart(part)
  {
    var pieces := SplitOutsideQuotes(part, ' ');
    var tokens := TrimParts(pieces);
    if tokens == [] { return None; }
    var eq := IndexOf(tokens[0], '=');
    if eq == |tokens[0]| { return None; }
    var props := ParseProps(tokens[1..]);
    return Some(Resinfo(Lower(tokens[0][..eq]), Lower(tokens[0][eq + 1..]), props));
  }

  lemma ParseNext(parts: seq<string>, i: nat, results: seq<Resinfo>)
    requires i < |parts|
    ensures results + ParseParts(parts[i..])
            == (if ParsePart(parts[i]).Some? then results + [ParsePart(parts[i]).value] else results)
               + ParseParts(parts[i + 1..])
  {
    assert parts[i..][0] == parts[i] && parts[i..][1..] == parts[i + 1..];
  }

  method ParseRecords(parts: seq<string>) returns (results: seq<Resinfo>)
    ensures results == ParseParts(parts)
  {
    results := [];
    for i := 0 to |parts|
      invariant results + ParseParts(parts[i..]) == ParseParts(parts)
    {
      ParseNext(parts, i, results);
      var r := ParseResult(parts[i]);
      if r.Some? { results := results + [r.value]; }
    }
  }

  method ParseHeader(value: string) returns (parsed: Parsed)
    ensures parsed == Parse(value)
  {
    var cleaned := StripComments(value);
    if cleaned.None? { return Parsed(None, []); }
    var pieces := SplitOutsideQuotes(cleaned.value, ';');
    var parts := TrimParts(pieces);
    if parts == [] { return Parsed(None, []); }
    var results := ParseRecords(parts[1..]);
    return Parsed(Some(Lower(parts[0][..FirstSpace(parts[0])])), results);
  }

  // ---------- The verdict ----------

  datatype MailHeader = MailHeader(name: Option<string>, value: Option<string>)

  function ValueOf(h: MailHeader): string {
    if h.value.Some? then h.value.value else ""
  }

  /** The first token of the raw value, before any comment is stripped. */
  function RawLength(s: string): (n: nat)
    ensures n <= |s|
  {
    if s == "" || s[0] == ';' || s[0] == '(' || IsSpace(s[0]) then 0 else 1 + RawLength(s[1..])
  }

  function RawAuthservId(value: string): string {
    var t := TrimStart(value);
    Lower(t[..RawLength(t)])
  }

  /** The part of the address after its last @ (the whole of it when there is none), trimmed and in lower case. */
  function AfterLastAt(email: string): string {
    if email == "" || email[|email| - 1] == '@' then "" else AfterLastAt(email[..|email| - 1]) + [email[|email| - 1]]
  }

  predicate IsCandidate(h: MailHeader, trusted: string) {
    h.name.Some? && Lower(h.name.value) == "authentication-results" && RawAuthservId(ValueOf(h)) == trusted
  }

  function Candidates(headers: seq<MailHeader>, trusted: string): seq<MailHeader> {
    if headers == [] then []
    else if IsCandidate(headers[0], trusted) then [headers[0]] + Candidates(headers[1..], trusted)
    else Candidates(headers[1..], trusted)
  }

  predicate Vouches(r: Resinfo, domain: string) {
    r.method_ == "dmarc" && r.result == "pass" && "header.from" in r.props && r.props["header.from"] == domain
  }

  predicate Authenticated(configured: Option<string>, headers: seq<MailHeader>, fromEmail: string) {
    var trusted := if configured.Some? then Lower(Trim(configured.value)) else "";
    var domain := Lower(Trim(AfterLastAt(fromEmail)));
    var candidates := Candidates(headers, trusted);
    && trusted != "" && domain != "" && |candidates| == 1
    && var parsed := Parse(ValueOf(candidates[0]));
       parsed.authserv == Some(trusted) && exists r :: r in parsed.results && Vouches(r, domain)
  }

  method SomeVouches(results: seq<Resinfo>, domain: string) returns (ok: bool)
    ensures ok <==> exists r :: r in results && Vouches(r, domain)
  {
    for i := 0 to |results|
      invariant forall j :: 0 <= j < i ==> !Vouches(results[j], domain)
    {
      if Vouches(results[i], domain) { return true; }
    }
    return false;
  }

  method IsAuthenticatedSender(configured: Option<string>, headers: seq<MailHeader>, fromEmail: string)
      returns (ok: bool)
    ensures ok == Authenticated(configured, headers, fromEmail)
  {
    var trusted := if configured.Some? then Lower(Trim(configured.value)) else "";
    if trusted == "" { return false; }
    var domain := Lower(Trim(AfterLastAt(fromEmail)));
    if domain == "" { return false; }
    var candidates := Candidates(headers, trusted);
    if |candidates| != 1 { return false; }
    var parsed := ParseHeader(ValueOf(candidates[0]));
    if parsed.authserv != Some(trusted) { return false; }
    ok := SomeVouches(parsed.results, domain);
  }

  /** Two headers that bear the trusted id refuse the sender, whatever either of them says. */
  lemma {:induction false} CandidatesHold(headers: seq<MailHeader>, trusted: string, i: nat, j: nat)
    requires i < j < |headers| && IsCandidate(headers[i], trusted) && IsCandidate(headers[j], trusted)
    ensures |Candidates(headers, trusted)| >= 2
    decreases |headers|
  {
    if i > 0 {
      CandidatesHold(headers[1..], trusted, i - 1, j - 1);
    } else {
      CandidateFound(headers[1..], trusted, j - 1);
    }
  }

  lemma {:induction false} CandidateFound(headers: seq<MailHeader>, trusted: string, j: nat)
    requires j < |headers| && IsCandidate(headers[j], trusted)
    ensures |Candidates(headers, trusted)| >= 1
    decreases |headers|
  {
    if j > 0 { CandidateFound(headers[1..], trusted, j - 1); }
  }

  lemma SecondHeaderRefused(configured: string, headers: seq<MailHeader>, fromEmail: string, i: nat, j: nat)
    requires i < j < |headers|
    requires IsCandidate(headers[i], Lower(Trim(configured))) && IsCandidate(headers[j], Lower(Trim(configured)))
    ensures !Authenticated(Some(configured), headers, fromEmail)
  {
    CandidatesHold(headers, Lower(Trim(configured)), i, j);
  }
}
