/** Licence keys and their normal form. The random choices are an input. */
module LicenseKey {
  import opened Text

  const ALPHABET := "ABCDEFGHJKMNPQRSTVWXYZ23456789"
  const GROUPS := 4
  const GROUP_LEN := 5
  const PREFIX := "VLA"

  // ---------- Groups ----------

  /** Pieces of five characters, the last one shorter, joined by hyphens. */
  function Grouped(body: string): string
    decreases |body|
  {
    if |body| <= GROUP_LEN then body else body[..GROUP_LEN] + "-" + Grouped(body[GROUP_LEN..])
  }

  function Key(body: string): string {
    PREFIX + "-" + Grouped(body)
  }

  function Join(groups: seq<string>): string {
    if groups == [] then ""
    else if |groups| == 1 then groups[0]
    else groups[0] + "-" + Join(groups[1..])
  }

  function Concat(groups: seq<string>): string {
    if groups == [] then "" else groups[0] + Concat(groups[1..])
  }

  lemma {:induction false} JoinIsGrouped(groups: seq<string>)
    requires forall i :: 0 <= i < |groups| ==>
        |groups[i]| <= GROUP_LEN && (i < |groups| - 1 ==> |groups[i]| == GROUP_LEN)
    requires forall i :: 0 < i < |groups| ==> groups[i] != ""
    ensures Join(groups) == Grouped(Concat(groups))
    decreases |groups|
  {
    if |groups| == 1 {
      assert Concat(groups) == groups[0] + Concat([]);
    } else if |groups| > 1 {
      var rest := groups[1..];
      assert forall i :: 0 <= i < |rest| ==> rest[i] == groups[i + 1];
      JoinIsGrouped(rest);
      assert Concat(rest) != "" by { assert rest[0] != ""; }
      assert Concat(groups)[..GROUP_LEN] == groups[0] && Concat(groups)[GROUP_LEN..] == Concat(rest);
    }
  }

  lemma {:induction false} ConcatAppend(groups: seq<string>, g: string)
    ensures Concat(groups + [g]) == Concat(groups) + g
    decreases |groups|
  {
    if groups == [] {
      assert [g][1..] == [];
    } else {
      assert (groups + [g])[1..] == groups[1..] + [g];
      ConcatAppend(groups[1..], g);
    }
  }

  // ---------- The two operations ----------

  /** The letters a sequence of random choices picks. */
  function Picked(choices: seq<nat>): string
    requires forall i :: 0 <= i < |choices| ==> choices[i] < |ALPHABET|
  {
    seq(|choices|, i requires 0 <= i < |choices| => ALPHABET[choices[i]])
  }

  predicate Choices(choices: seq<nat>) {
    |choices| == GROUPS * GROUP_LEN && forall i :: 0 <= i < |choices| ==> choices[i] < |ALPHABET|
  }

  method GenerateLicenseKey(choices: seq<nat>) returns (key: string)
    requires Choices(choices)
    ensures key == Key(Picked(choices))
  {
    var groups: seq<string> := [];
    var n := 0;
    for g := 0 to GROUPS
      invariant n == g * GROUP_LEN && |groups| == g
      invariant forall k :: 0 <= k < g ==> |groups[k]| == GROUP_LEN
      invariant Concat(groups) == Picked(choices)[..n]
    {
      var group := "";
      for i := 0 to GROUP_LEN
        invariant n == g * GROUP_LEN + i && group == Picked(choices)[g * GROUP_LEN..n]
      {
        group := group + [ALPHABET[choices[n]]];
        n := n + 1;
      }
      ConcatAppend(groups, group);
      groups := groups + [group];
    }
    JoinIsGrouped(groups);
    assert Picked(choices)[..n] == Picked(choices);
    key := PREFIX + "-" + Join(groups);
  }

  predicate Kept(c: char) {
    'A' <= c <= 'Z' || '0' <= c <= '9'
  }

  function Filter(s: string): string {
    if s == "" then "" else if Kept(s[0]) then [s[0]] + Filter(s[1..]) else Filter(s[1..])
  }

  /** The upper-case letters and digits of the input. */
  function Bare(input: string): string {
    Filter(Upper(input))
  }

  function Body(bare: string): string {
    if PREFIX <= bare then bare[|PREFIX|..] else bare
  }

  function Normalise(input: string): string {
    Key(Body(Bare(input)))
  }

  method NormaliseLicenseKey(input: string) returns (key: string)
    ensures key == Normalise(input)
  {
    var bare := Bare(input);
    var body := Body(bare);
    var groups: seq<string> := [];
    var i := 0;
    while i < |body|
      invariant Concat(groups) == body[..if i < |body| then i else |body|]
      invariant forall k :: 0 <= k < |groups| ==> 0 < |groups[k]| <= GROUP_LEN
      invariant i <= |body| ==> forall k :: 0 <= k < |groups| ==> |groups[k]| == GROUP_LEN
      invariant forall k :: 0 <= k < |groups| - 1 ==> |groups[k]| == GROUP_LEN
    {
      var end := if i + GROUP_LEN < |body| then i + GROUP_LEN else |body|;
      ConcatAppend(groups, body[i..end]);
      assert body[..i] + body[i..end] == body[..end];
      groups := groups + [body[i..end]];
      i := i + GROUP_LEN;
    }
    assert Concat(groups) == body by { assert body[..|body|] == body; }
    JoinIsGrouped(groups);
    key := PREFIX + "-" + Join(groups);
  }

  // ---------- What normalising does ----------

  ghost predicate AllKept(s: string) {
    forall i :: 0 <= i < |s| ==> Kept(s[i])
  }

  lemma {:induction false} FilterAppend(a: string, b: string)
    ensures Filter(a + b) == Filter(a) + Filter(b)
    decreases |a|
  {
    if a == "" {
      assert a + b == b;
    } else {
      assert (a + b)[1..] == a[1..] + b;
      FilterAppend(a[1..], b);
    }
  }

  lemma {:induction false} FilterKeeps(s: string)
    ensures AllKept(Filter(s)) && (AllKept(s) ==> Filter(s) == s)
    decreases |s|
  {
    if s != "" {
      FilterKeeps(s[1..]);
      assert AllKept(s) ==> AllKept(s[1..]);
    }
  }

  lemma {:induction false} FilterGrouped(body: string)
    requires AllKept(body)
    ensures Filter(Grouped(body)) == body
    decreases |body|
  {
    if |body| <= GROUP_LEN {
      FilterKeeps(body);
    } else {
      FilterGrouped(body[GROUP_LEN..]);
      FilterHead(body[..GROUP_LEN], Grouped(body[GROUP_LEN..]));
    }
  }

  lemma FilterHead(head: string, rest: string)
    requires AllKept(head)
    ensures Filter(head + "-" + rest) == head + Filter(rest)
  {
    FilterKeeps(head);
    FilterAppend(head + "-", rest);
    FilterAppend(head, "-");
    assert Filter("-") == "";
  }

  lemma {:induction false} GroupedUpper(body: string)
    requires AllKept(body)
    ensures Upper(Grouped(body)) == Grouped(body)
    decreases |body|
  {
    if |body| > GROUP_LEN {
      GroupedUpper(body[GROUP_LEN..]);
      assert AllKept(body[..GROUP_LEN]);
      UpperAppend(body[..GROUP_LEN] + "-", Grouped(body[GROUP_LEN..]));
    }
  }

  lemma UpperAppend(a: string, b: string)
    ensures Upper(a + b) == Upper(a) + Upper(b)
  {
  }

  /** The letters and digits of a key are its prefix and its body. */
  lemma BareKey(body: string)
    requires AllKept(body)
    ensures Bare(Key(body)) == PREFIX + body
  {
    GroupedUpper(body);
    UpperAppend(PREFIX + "-", Grouped(body));
    assert Upper(PREFIX + "-") == PREFIX + "-";
    FilterGrouped(body);
    FilterHead(PREFIX, Grouped(body));
  }

  lemma BodyKept(input: string)
    ensures AllKept(Body(Bare(input)))
  {
    FilterKeeps(Upper(input));
  }

  /** Normalising twice is normalising once, on every input. */
  lemma NormaliseIdempotent(input: string)
    ensures Normalise(Normalise(input)) == Normalise(input)
  {
    BodyKept(input);
    BareKey(Body(Bare(input)));
  }

  // ---------- Where each character goes ----------

  /** The character at position i of a body stands i / 5 hyphens further right, and there are hyphens between. */
  lemma {:induction false} GroupedAt(body: string, i: nat)
    requires i < |body|
    ensures |Grouped(body)| == |body| + (|body| - 1) / 5
    ensures Grouped(body)[i + i / 5] == body[i]
    ensures i % 5 == 4 && i + 1 < |body| ==> Grouped(body)[i + i / 5 + 1] == '-'
    decreases |body|
  {
    if |body| > GROUP_LEN {
      var (five, rest) := (body[..5], body[5..]);
      assert Grouped(body) == five + "-" + Grouped(rest);
      if i < 5 {
        GroupedAt(rest, 0);
        assert (five + "-")[i] == body[i];
      } else {
        GroupedAt(rest, i - 5);
        assert (i - 5) / 5 == i / 5 - 1;
      }
    }
  }

  /** The normal form of a string of upper-case letters and digits: VLA and a hyphen, then the string, without a
      leading VLA, in fives with a hyphen after each but the last. */
  lemma NormalFormAt(bare: string, body: string, i: nat)
    requires forall k :: 0 <= k < |bare| ==> 'A' <= bare[k] <= 'Z' || '0' <= bare[k] <= '9'
    requires bare == "VLA" + body || (bare == body && !("VLA" <= bare))
    requires i < |body|
    ensures
      var key := Normalise(bare);
      && key[..4] == "VLA-" && |key| == 4 + |body| + (|body| - 1) / 5
      && key[4 + i + i / 5] == body[i]
      && (i % 5 == 4 && i + 1 < |body| ==> key[4 + i + i / 5 + 1] == '-')
  {
    BareBody(bare, body);
    GroupedAt(body, i);
    KeyAt(body, i + i / 5);
    if i % 5 == 4 && i + 1 < |body| { KeyAt(body, i + i / 5 + 1); }
  }

  lemma BareBody(bare: string, body: string)
    requires forall k :: 0 <= k < |bare| ==> 'A' <= bare[k] <= 'Z' || '0' <= bare[k] <= '9'
    requires bare == "VLA" + body || (bare == body && !("VLA" <= bare))
    ensures Normalise(bare) == Key(body)
  {
    FilterKeeps(bare);
    assert Upper(bare) == bare;
  }

  lemma KeyAt(body: string, n: nat)
    requires n < |Grouped(body)|
    ensures Key(body)[..4] == "VLA-" && Key(body)[4 + n] == Grouped(body)[n]
  {
  }

  /** Anything between the letters and digits makes no difference, and neither does case. */
  lemma OnlyAlphanumericsCount(before: string, c: char, after: string)
    requires !('A' <= c <= 'Z' || 'a' <= c <= 'z' || '0' <= c <= '9')
    ensures Normalise(before + ([c] + after)) == Normalise(before + after)
    ensures Normalise(Lower(before)) == Normalise(Upper(before)) == Normalise(before)
  {
    UpperAppend(before, [c] + after);
    UpperAppend([c], after);
    UpperAppend(before, after);
    FilterAppend(Upper(before), Upper([c]) + Upper(after));
    FilterAppend(Upper([c]), Upper(after));
    FilterAppend(Upper(before), Upper(after));
    assert Upper([c]) == [c] && Filter([c]) == "";
    assert Upper(Lower(before)) == Upper(before) == Upper(Upper(before));
  }

  lemma PickedClean(choices: seq<nat>)
    requires forall i :: 0 <= i < |choices| ==> choices[i] < |ALPHABET|
    ensures AllKept(Picked(choices)) && forall i :: 0 <= i < |choices| ==> Picked(choices)[i] != 'L'
  {
    assert forall k :: 0 <= k < |ALPHABET| ==> Kept(ALPHABET[k]) && ALPHABET[k] != 'L';
  }

  /**
   An input normalises to an issued key exactly when its letters and digits, in upper case, are those of the key,
   with the VLA prefix or without it. (The alphabet has no L, so a body never looks like the prefix.)
   */
  lemma NormalisesToIssuedKey(choices: seq<nat>, input: string)
    requires Choices(choices)
    ensures
      var key := Key(Picked(choices));
      Normalise(input) == key <==> Bare(input) == PREFIX + Picked(choices) || Bare(input) == Picked(choices)
  {
    var body := Picked(choices);
    PickedClean(choices);
    BareKey(body);
    assert !(PREFIX <= body) by { assert body[1] != 'L'; assert PREFIX[1] == 'L'; }
    BodyKept(input);
    if Normalise(input) == Key(body) {
      BareKey(Body(Bare(input)));
      assert PREFIX + Body(Bare(input)) == PREFIX + body;
      assert Body(Bare(input)) == (PREFIX + Body(Bare(input)))[3..];
      if PREFIX <= Bare(input) { assert Bare(input) == PREFIX + Bare(input)[3..]; }
    }
  }

  /** So every issued key is its own normal form, and no two issued keys share one. */
  lemma IssuedKeysAreNormal(choices: seq<nat>, others: seq<nat>)
    requires Choices(choices) && Choices(others)
    ensures Normalise(Key(Picked(choices))) == Key(Picked(choices))
    ensures Normalise(Key(Picked(others))) == Key(Picked(choices)) ==> Picked(others) == Picked(choices)
  {
    NormalisesToIssuedKey(choices, Key(Picked(choices)));
    PickedClean(choices);
    PickedClean(others);
    BareKey(Picked(choices));
    BareKey(Picked(others));
    NormalisesToIssuedKey(choices, Key(Picked(others)));
    assert Bare(Key(Picked(others)))[3..] == Picked(others) && Bare(Key(Picked(choices)))[3..] == Picked(choices);
    assert |Bare(Key(Picked(others)))| == |PREFIX| + |Picked(others)|;
  }
}
