/** Which senders are authenticated, in terms of the headers' own text and of the records printed in them. */
module AuthVerdict {
  import opened Wrappers
  import opened Text
  import opened AuthComments
  import opened AuthResults
  import opened AuthRoundTrip

  // ---------- Headers that bear an id ----------

  /** What ends the id that a header value starts with. */
  predicate Stops(c: char) {
    c == ';' || c == '(' || IsSpace(c)
  }

  predicate NoStop(s: string) {
    forall i :: 0 <= i < |s| ==> !Stops(s[i])
  }

  predicate AllSpace(s: string) {
    forall i :: 0 <= i < |s| ==> IsSpace(s[i])
  }

  /** The value is white space, then the id in any case, and then nothing or something that ends it. */
  predicate SplitsAt(value: string, id: string, white: string, raw: string, rest: string) {
    && value == white + (raw + rest) && AllSpace(white) && NoStop(raw) && (rest == "" || Stops(rest[0]))
    && Lower(raw) == id
  }

  ghost predicate Bears(value: string, id: string) {
    exists white, raw, rest :: SplitsAt(value, id, white, raw, rest)
  }

  lemma {:induction false} RawLengthExact(s: string)
    ensures NoStop(s[..RawLength(s)]) && (RawLength(s) < |s| ==> Stops(s[RawLength(s)]))
    decreases |s|
  {
    if s != "" && !Stops(s[0]) {
      RawLengthExact(s[1..]);
      assert s[..RawLength(s)] == [s[0]] + s[1..][..RawLength(s[1..])];
    }
  }

  lemma {:induction false} RawLengthIs(raw: string, rest: string)
    requires NoStop(raw) && (rest == "" || Stops(rest[0]))
    ensures RawLength(raw + rest) == |raw|
    decreases |raw|
  {
    if raw != "" {
      assert (raw + rest)[1..] == raw[1..] + rest;
      RawLengthIs(raw[1..], rest);
    } else {
      assert raw + rest == rest;
    }
  }

  lemma BearsRawId(value: string, id: string, white: string, raw: string, rest: string)
    requires id != "" && SplitsAt(value, id, white, raw, rest)
    ensures RawAuthservId(value) == id
  {
    TrimStartSkips(white, raw + rest);
    RawLengthIs(raw, rest);
    assert (raw + rest)[..|raw|] == raw;
  }

  lemma WhiteBefore(value: string) returns (white: string)
    ensures AllSpace(white) && value == white + TrimStart(value)
  {
    TrimStartShrinks(value);
    white := value[..|value| - |TrimStart(value)|];
  }

  lemma RawIdBears(value: string, id: string)
    requires RawAuthservId(value) == id
    ensures Bears(value, id)
  {
    var t := TrimStart(value);
    RawLengthExact(t);
    var raw, rest := t[..RawLength(t)], t[RawLength(t)..];
    assert t == raw + rest;
    var white := WhiteBefore(value);
    assert SplitsAt(value, id, white, raw, rest);
  }

  /** The id read from a raw value is this one exactly when the value bears it. */
  lemma RawIdExact(value: string, id: string)
    requires id != ""
    ensures RawAuthservId(value) == id <==> Bears(value, id)
  {
    if RawAuthservId(value) == id { RawIdBears(value, id); }
    if Bears(value, id) {
      var white, raw, rest :| SplitsAt(value, id, white, raw, rest);
      BearsRawId(value, id, white, raw, rest);
    }
  }

  /** An Authentication-Results header that bears the id. */
  ghost predicate Ours(h: MailHeader, id: string) {
    && h.name.Some? && Lower(h.name.value) == "authentication-results"
    && h.value.Some? && Bears(h.value.value, id)
  }

  lemma OursIsCandidate(h: MailHeader, id: string)
    requires id != ""
    ensures IsCandidate(h, id) <==> Ours(h, id)
  {
    RawIdExact(ValueOf(h), id);
  }

  ghost predicate OnlyOurs(headers: seq<MailHeader>, id: string, i: nat) {
    i < |headers| && Ours(headers[i], id) && forall k :: 0 <= k < |headers| && k != i ==> !Ours(headers[k], id)
  }

  lemma {:induction false} NoCandidates(headers: seq<MailHeader>, id: string)
    requires forall k :: 0 <= k < |headers| ==> !IsCandidate(headers[k], id)
    ensures Candidates(headers, id) == []
    decreases |headers|
  {
    if headers != [] { NoCandidates(headers[1..], id); }
  }

  lemma {:induction false} OneCandidate(headers: seq<MailHeader>, id: string, i: nat)
    requires i < |headers| && IsCandidate(headers[i], id)
    requires forall k :: 0 <= k < |headers| && k != i ==> !IsCandidate(headers[k], id)
    ensures Candidates(headers, id) == [headers[i]]
    decreases |headers|
  {
    var rest := headers[1..];
    assert forall k :: 0 <= k < |rest| ==> rest[k] == headers[k + 1];
    if i == 0 { NoCandidates(rest, id); } else { OneCandidate(rest, id, i - 1); }
  }

  lemma {:induction false} OnlyCandidate(headers: seq<MailHeader>, id: string) returns (i: nat)
    requires |Candidates(headers, id)| == 1
    ensures i < |headers| && IsCandidate(headers[i], id) && Candidates(headers, id) == [headers[i]]
    ensures forall k :: 0 <= k < |headers| && k != i ==> !IsCandidate(headers[k], id)
    decreases |headers|
  {
    var rest := headers[1..];
    assert forall k :: 0 <= k < |rest| ==> rest[k] == headers[k + 1];
    if IsCandidate(headers[0], id) {
      i := 0;
      forall k | 0 <= k < |rest| ensures !IsCandidate(rest[k], id) {
        if IsCandidate(rest[k], id) { CandidateFound(rest, id, k); }
      }
    } else {
      i := OnlyCandidate(rest, id);
      i := i + 1;
    }
  }

  /** Nobody is authenticated without a configured id, without exactly one header that bears it, or when the value
      of that header is malformed: one that the grammar of quoted strings and comments does not derive. */
  lemma AuthenticatedNeeds(configured: Option<string>, headers: seq<MailHeader>, fromEmail: string)
    requires Authenticated(configured, headers, fromEmail)
    ensures configured.Some? && Lower(Trim(configured.value)) != ""
    ensures exists i: nat, v :: OnlyOurs(headers, Lower(Trim(configured.value)), i)
              && ValueOk(v) && headers[i].value == Some(ValueText(v))
  {
    var id := Lower(Trim(configured.value));
    var i := OnlyCandidate(headers, id);
    forall k | 0 <= k < |headers| ensures IsCandidate(headers[k], id) <==> Ours(headers[k], id) {
      OursIsCandidate(headers[k], id);
    }
    StrippedIffGrammar(ValueOf(headers[i]));
    var v :| ValueOk(v) && ValueText(v) == ValueOf(headers[i]);
    assert OnlyOurs(headers, id, i) && ValueOk(v);
  }

  // ---------- The sender's domain ----------

  /** The text after the last @ of the address, or all of it when there is none. */
  ghost predicate HasDomain(email: string, dom: string) {
    '@' !in dom && (email == dom || exists local :: email == local + "@" + dom)
  }

  lemma {:induction false} AfterLastAtIs(front: string, dom: string)
    requires '@' !in dom && (front == "" || front[|front| - 1] == '@')
    ensures AfterLastAt(front + dom) == dom
    decreases |dom|
  {
    if dom == "" {
      assert front + dom == front;
    } else {
      var init, last := dom[..|dom| - 1], dom[|dom| - 1];
      assert last in dom && forall c :: c in init ==> c in dom;
      assert (front + dom)[..|front + dom| - 1] == front + init;
      AfterLastAtIs(front, init);
      assert init + [last] == dom;
    }
  }

  lemma DomainIs(email: string, dom: string)
    requires HasDomain(email, dom)
    ensures AfterLastAt(email) == dom
  {
    if email == dom {
      AfterLastAtIs("", dom);
      assert "" + dom == dom;
    } else {
      var local :| email == local + "@" + dom;
      AfterLastAtIs(local + "@", dom);
    }
  }

  // ---------- The verdict ----------

  /** The property at j is the last of its name, so it is the one that counts. */
  predicate Decides(ps: seq<Prop>, j: nat, key: string, value: string) {
    && j < |ps| && ps[j].key == key && ps[j].value == value
    && forall k :: j < k < |ps| ==> ps[k].key != key
  }

  ghost predicate Says(ps: seq<Prop>, key: string, value: string) {
    exists j: nat :: Decides(ps, j, key, value)
  }

  lemma SaysNext(ps: seq<Prop>, key: string, value: string)
    requires ps != []
    ensures Says(ps, key, value) <==>
              Says(ps[1..], key, value) || (ps[0].key == key && ps[0].value == value && !HasKey(ps[1..], key))
  {
    var rest := ps[1..];
    assert forall k :: 0 <= k < |rest| ==> rest[k] == ps[k + 1];
    if Says(ps, key, value) {
      var j: nat :| Decides(ps, j, key, value);
      if j > 0 { assert Decides(rest, j - 1, key, value); }
    }
    if Says(rest, key, value) {
      var j: nat :| Decides(rest, j, key, value);
      assert forall k :: j + 1 < k < |ps| ==> ps[k] == rest[k - 1];
      assert Decides(ps, j + 1, key, value);
    }
    if ps[0].key == key && ps[0].value == value && !HasKey(rest, key) {
      assert forall k :: 0 < k < |ps| ==> ps[k] == rest[k - 1];
      assert Decides(ps, 0, key, value);
    }
  }

  lemma SaysHasKey(ps: seq<Prop>, key: string, value: string)
    requires Says(ps, key, value)
    ensures HasKey(ps, key)
  {
    var j: nat :| Decides(ps, j, key, value);
    assert ps[j].key == key;
  }

  /** The parser's object holds a value under a name exactly when the last property of that name has it. */
  lemma {:induction false} LastWins(props: Props, ps: seq<Prop>, key: string, value: string)
    requires key != "__proto__"
    ensures Holds(PropsOf(props, ps), key, value) <==>
              Says(ps, key, value) || (!HasKey(ps, key) && Holds(props, key, value))
    decreases |ps|
  {
    if ps == [] {
      if Says(ps, key, value) { SaysHasKey(ps, key, value); }
    } else {
      LastWins(SetProp(props, ps[0].key, ps[0].value), ps[1..], key, value);
      SaysNext(ps, key, value);
      HasKeyNext(ps, key);
      if Says(ps[1..], key, value) { SaysHasKey(ps[1..], key, value); }
    }
  }

  lemma {:induction false} MeaningsHold(rs: seq<Record>, x: Resinfo)
    ensures x in Meanings(rs) <==> exists i :: 0 <= i < |rs| && x == Meaning(rs[i])
    decreases |rs|
  {
    if rs != [] {
      MeaningsHold(rs[1..], x);
      if i :| 0 <= i < |rs[1..]| && x == Meaning(rs[1..][i]) {
        assert rs[i + 1] == rs[1..][i];
      }
      if i :| 0 <= i < |rs| && x == Meaning(rs[i]) {
        assert i == 0 || rs[i] == rs[1..][i - 1];
      }
    }
  }

  /** A record vouches for a domain exactly when it says that DMARC passed, with that domain as header.from. */
  lemma VouchesExact(r: Record, domain: string)
    ensures Vouches(Meaning(r), domain) <==>
              r.method_ == "dmarc" && r.result == "pass" && Says(r.props, "header.from", domain)
  {
    LastWins(map[], r.props, "header.from", domain);
  }

  lemma SomeRecordVouches(rs: seq<Record>, domain: string)
    ensures (exists x :: x in Meanings(rs) && Vouches(x, domain)) <==>
              exists n :: 0 <= n < |rs| && rs[n].method_ == "dmarc" && rs[n].result == "pass"
                          && Says(rs[n].props, "header.from", domain)
  {
    if x :| x in Meanings(rs) && Vouches(x, domain) {
      MeaningsHold(rs, x);
      var n :| 0 <= n < |rs| && x == Meaning(rs[n]);
      VouchesExact(rs[n], domain);
    }
    if n :| 0 <= n < |rs| && rs[n].method_ == "dmarc" && rs[n].result == "pass"
            && Says(rs[n].props, "header.from", domain) {
      VouchesExact(rs[n], domain);
      MeaningsHold(rs, Meaning(rs[n]));
      assert Meaning(rs[n]) in Meanings(rs);
    }
  }

  lemma PlainGap(g: Gap)
    requires GapOk(g) && forall i :: 0 <= i < |g| ==> !g[i].Note?
    ensures AllSpace(GapText(g))
  {
    WhitesAreSpaces(g);
    NothingHidden(g);
  }

  lemma {:induction false} NothingHidden(g: Gap)
    requires forall i :: 0 <= i < |g| ==> !g[i].Note?
    ensures GapText(g) == Whites(g)
    decreases |g|
  {
    if g != [] { NothingHidden(g[1..]); }
  }

  lemma AfterName(d: Doc)
    requires DocOk(d)
    ensures
      var rest := GapText(d.after) + RecordsText(d.records);
      rest == "" || Stops(rest[0])
  {
    if d.after == [] {
      assert GapText(d.after) + RecordsText(d.records) == RecordsText(d.records);
    } else {
      assert ItemOk(d.after[0]);
    }
  }

  /** A printed header bears its server's id when no comment stands before it. */
  lemma DocBears(d: Doc)
    requires DocOk(d) && forall i :: 0 <= i < |d.before| ==> !d.before[i].Note?
    ensures Bears(DocText(d), d.authserv)
  {
    var rest := GapText(d.after) + RecordsText(d.records);
    PlainGap(d.before);
    AfterName(d);
    SafeLower(d.authserv);
    Assoc(GapText(d.before) + d.authserv, GapText(d.after), RecordsText(d.records));
    Assoc(GapText(d.before), d.authserv, rest);
    assert SplitsAt(DocText(d), d.authserv, GapText(d.before), d.authserv, rest);
  }

  lemma OnlyOursIsCandidate(headers: seq<MailHeader>, id: string, i: nat)
    requires id != "" && OnlyOurs(headers, id, i)
    ensures Candidates(headers, id) == [headers[i]]
  {
    forall k | 0 <= k < |headers| ensures IsCandidate(headers[k], id) <==> Ours(headers[k], id) {
      OursIsCandidate(headers[k], id);
    }
    OneCandidate(headers, id, i);
  }

  /**
   Whatever other headers the message has, when the only Authentication-Results header that bears the configured id
   holds a printed document, the sender is authenticated exactly when the address has a domain and some record of
   the document says that DMARC passed, with that very domain as its header.from.
   */
  lemma StampedHeaderDecides(configured: string, headers: seq<MailHeader>, i: nat, d: Doc, fromEmail: string,
      dom: string)
    requires DocOk(d) && RecordsSpaced(d.records) && Lower(Trim(configured)) == d.authserv
    requires OnlyOurs(headers, d.authserv, i) && headers[i].value == Some(DocText(d))
    requires HasDomain(fromEmail, dom)
    ensures Authenticated(Some(configured), headers, fromEmail) <==>
              Lower(Trim(dom)) != "" &&
              exists n :: 0 <= n < |d.records| && d.records[n].method_ == "dmarc" && d.records[n].result == "pass"
                          && Says(d.records[n].props, "header.from", Lower(Trim(dom)))
  {
    OnlyOursIsCandidate(headers, d.authserv, i);
    ParsePrint(d);
    DomainIs(fromEmail, dom);
    SomeRecordVouches(d.records, Lower(Trim(dom)));
  }
}
