/**
 Stripping comments from a header value: comments as in section 3.2.2 of RFC 5322 nest and hold quoted pairs,
 quoted strings as in section 3.2.4 hide parentheses. The scan is proved against a grammar of such values.
 */
module AuthComments {
  import opened Wrappers

  // ---------- The scan as a state machine ----------

  datatype Mode =
    | Plain | PlainEscape
    | Quote | QuoteEscape
    | Comment(depth: nat) | CommentEscape(depth: nat)

  datatype Scan = Bad | Scan(mode: Mode, out: string)

  function Step(s: Scan, c: char): Scan {
    match s
    case Bad => Bad
    case Scan(Plain, out) =>
      if c == '\\' then Scan(PlainEscape, out + [c])
      else if c == '"' then Scan(Quote, out + [c])
      else if c == '(' then Scan(Comment(0), out)
      else if c == ')' then Bad
      else Scan(Plain, out + [c])
    case Scan(PlainEscape, out) => Scan(Plain, out + [c])
    case Scan(Quote, out) =>
      if c == '\\' then Scan(QuoteEscape, out + [c])
      else if c == '"' then Scan(Plain, out + [c])
      else Scan(Quote, out + [c])
    case Scan(QuoteEscape, out) => Scan(Quote, out + [c])
    case Scan(Comment(d), out) =>
      if c == '\\' then Scan(CommentEscape(d), out)
      else if c == '(' then Scan(Comment(d + 1), out)
      else if c == ')' then Scan(if d == 0 then Plain else Comment(d - 1), out)
      else s
    case Scan(CommentEscape(d), out) => Scan(Comment(d), out)
  }

  function Run(s: Scan, input: string): Scan
    decreases |input|
  {
    if input == "" then s else Run(Step(s, input[0]), input[1..])
  }

  /** A value is malformed when it ends inside a quoted string or a comment; a lone backslash at the end is kept. */
  function Finish(s: Scan): Option<string> {
    if s.Scan? && (s.mode == Plain || s.mode == PlainEscape) then Some(s.out) else None
  }

  const START: Scan := Scan(Plain, "")

  function Stripped(input: string): Option<string> {
    Finish(Run(START, input))
  }

  lemma {:induction false} RunAppend(s: Scan, a: string, b: string)
    ensures Run(s, a + b) == Run(Run(s, a), b)
    decreases |a|
  {
    if a == "" {
      assert a + b == b;
    } else {
      assert (a + b)[1..] == a[1..] + b;
      RunAppend(Step(s, a[0]), a[1..], b);
    }
  }

  lemma RunChar(s: Scan, c: char)
    ensures Run(s, [c]) == Step(s, c)
  {
    assert Run(Step(s, c), [c][1..]) == Step(s, c);
  }

  /** The state the loop's variables stand for. */
  function Current(out: string, depth: nat, inQuote: bool): Scan {
    Scan(if inQuote then Quote else if depth > 0 then Comment(depth - 1) else Plain, out)
  }

  lemma RunTwo(s: Scan, input: string)
    requires |input| >= 2
    ensures Run(s, input) == Run(Step(Step(s, input[0]), input[1]), input[2..])
  {
    assert input[1..][1..] == input[2..] && input[1..][0] == input[1];
  }

  lemma Assoc(a: string, b: string, c: string)
    ensures a + b + c == a + (b + c)
  {
  }

  /** An escape takes the next character with it. */
  lemma TakePair(out: string, depth: nat, inQuote: bool, input: string)
    requires |input| >= 2 && input[0] == '\\' && (inQuote ==> depth == 0)
    ensures Run(Current(out, depth, inQuote), input)
            == Run(Current(if depth > 0 then out else out + [input[0], input[1]], depth, inQuote), input[2..])
  {
    RunTwo(Current(out, depth, inQuote), input);
    Assoc(out, [input[0]], [input[1]]);
    assert [input[0]] + [input[1]] == [input[0], input[1]];
  }

  /** At the very end it is kept alone, and leaves the value as complete or incomplete as it was. */
  lemma TakeLast(out: string, depth: nat, inQuote: bool)
    requires inQuote ==> depth == 0
    ensures Finish(Run(Current(out, depth, inQuote), "\\"))
            == Finish(Current(if depth > 0 then out else out + "\\", depth, inQuote))
  {
    RunChar(Current(out, depth, inQuote), '\\');
  }

  method StripComments(input: string) returns (r: Option<string>)
    ensures r == Stripped(input)
  {
    var out, depth: nat, inQuote := "", 0, false;
    var i := 0;
    while i < |input|
      invariant i <= |input| && (inQuote ==> depth == 0)
      invariant Stripped(input) == Finish(Run(Current(out, depth, inQuote), input[i..]))
      decreases |input| - i
    {
      var c := input[i];
      var rest := input[i..];
      assert rest[0] == c && rest[1..] == input[i + 1..];
      if c == '\\' {
        if i + 1 < |input| {
          TakePair(out, depth, inQuote, rest);
          if depth == 0 { out := out + [c, input[i + 1]]; }
          assert rest[2..] == input[i + 2..];
          i := i + 2;
        } else {
          assert rest == "\\";
          TakeLast(out, depth, inQuote);
          if depth == 0 { out := out + [c]; }
          i := i + 1;
        }
        continue;
      }
      if inQuote {
        if c == '"' { inQuote := false; }
        out := out + [c];
      } else if depth > 0 {
        if c == '(' { depth := depth + 1; }
        else if c == ')' { depth := depth - 1; }
      } else if c == '"' {
        inQuote := true;
        out := out + [c];
      } else if c == '(' {
        depth := depth + 1;
      } else if c == ')' {
        BadStays(rest[1..]);
        return None;
      } else {
        out := out + [c];
      }
      i := i + 1;
    }
    return if depth == 0 && !inQuote then Some(out) else None;
  }

  lemma {:induction false} BadStays(input: string)
    ensures Run(Bad, input) == Bad
    decreases |input|
  {
    if input != "" { BadStays(input[1..]); }
  }

  // ---------- The grammar ----------

  datatype QuotedItem = QuotedChar(c: char) | QuotedPair(c: char)

  datatype CommentItem = CommentChar(c: char) | CommentPair(c: char) | Nested(items: seq<CommentItem>)

  datatype Piece =
    | Char(c: char)
    | Pair(c: char)
    | QuotedString(quoted: seq<QuotedItem>)
    | CommentPiece(items: seq<CommentItem>)

  /** A header value: pieces, and perhaps a lone backslash at the end. */
  datatype Value = Value(pieces: seq<Piece>, dangling: bool)

  predicate QuotedOk(items: seq<QuotedItem>) {
    forall i :: 0 <= i < |items| && items[i].QuotedChar? ==> items[i].c != '\\' && items[i].c != '"'
  }

  predicate CommentOk(items: seq<CommentItem>)
    decreases items
  {
    forall i :: 0 <= i < |items| ==>
      && (items[i].CommentChar? ==> items[i].c != '\\' && items[i].c != '(' && items[i].c != ')')
      && (items[i].Nested? ==> CommentOk(items[i].items))
  }

  predicate PieceOk(p: Piece) {
    match p
    case Char(c) => c != '\\' && c != '"' && c != '(' && c != ')'
    case Pair(_) => true
    case QuotedString(items) => QuotedOk(items)
    case CommentPiece(items) => CommentOk(items)
  }

  predicate ValueOk(v: Value) {
    forall i :: 0 <= i < |v.pieces| ==> PieceOk(v.pieces[i])
  }

  function QuotedText(items: seq<QuotedItem>): string {
    if items == [] then ""
    else (match items[0] case QuotedChar(c) => [c] case QuotedPair(c) => ['\\', c]) + QuotedText(items[1..])
  }

  function CommentText(items: seq<CommentItem>): string
    decreases items
  {
    if items == [] then ""
    else
      (match items[0]
       case CommentChar(c) => [c]
       case CommentPair(c) => ['\\', c]
       case Nested(inner) => "(" + CommentText(inner) + ")")
      + CommentText(items[1..])
  }

  function PieceText(p: Piece): string {
    match p
    case Char(c) => [c]
    case Pair(c) => ['\\', c]
    case QuotedString(items) => "\"" + QuotedText(items) + "\""
    case CommentPiece(items) => "(" + CommentText(items) + ")"
  }

  function PiecesText(pieces: seq<Piece>): string {
    if pieces == [] then "" else PieceText(pieces[0]) + PiecesText(pieces[1..])
  }

  /** What is left of the pieces when the comments are dropped. */
  function PiecesVisible(pieces: seq<Piece>): string {
    if pieces == [] then ""
    else (if pieces[0].CommentPiece? then "" else PieceText(pieces[0])) + PiecesVisible(pieces[1..])
  }

  function ValueText(v: Value): string {
    PiecesText(v.pieces) + if v.dangling then "\\" else ""
  }

  function ValueVisible(v: Value): string {
    PiecesVisible(v.pieces) + if v.dangling then "\\" else ""
  }

  // ---------- The scan accepts what the grammar prints ----------

  lemma {:induction false} RunQuoted(items: seq<QuotedItem>, out: string)
    requires QuotedOk(items)
    ensures Run(Scan(Quote, out), QuotedText(items)) == Scan(Quote, out + QuotedText(items))
    decreases |items|
  {
    if items == [] {
      assert out + "" == out;
    } else {
      var head := match items[0] case QuotedChar(c) => [c] case QuotedPair(c) => ['\\', c];
      RunAppend(Scan(Quote, out), head, QuotedText(items[1..]));
      if items[0].QuotedPair? {
        RunPair(Scan(Quote, out), '\\', items[0].c);
        Assoc(out, ['\\'], [items[0].c]);
        assert ['\\'] + [items[0].c] == head;
      } else {
        RunChar(Scan(Quote, out), items[0].c);
      }
      RunQuoted(items[1..], out + head);
      Assoc(out, head, QuotedText(items[1..]));
    }
  }

  lemma RunPair(s: Scan, a: char, b: char)
    ensures Run(s, [a, b]) == Step(Step(s, a), b)
  {
    assert [a, b] == [a] + [b];
    RunAppend(s, [a], [b]);
    RunChar(s, a);
    RunChar(Step(s, a), b);
  }

  /** Inside a comment, well-formed content comes back to the same depth. */
  lemma {:induction false} RunComment(items: seq<CommentItem>, d: nat, out: string)
    requires CommentOk(items)
    ensures Run(Scan(Comment(d), out), CommentText(items)) == Scan(Comment(d), out)
    decreases items, 0
  {
    if items != [] {
      var s := Scan(Comment(d), out);
      var head :=
        match items[0]
        case CommentChar(c) => [c]
        case CommentPair(c) => ['\\', c]
        case Nested(inner) => "(" + CommentText(inner) + ")";
      RunAppend(s, head, CommentText(items[1..]));
      match items[0] {
        case CommentChar(c) => RunChar(s, c);
        case CommentPair(c) => RunPair(s, '\\', c);
        case Nested(inner) => RunParens(inner, s);
      }
      assert CommentOk(items[1..]);
      RunComment(items[1..], d, out);
    }
  }

  /** A whole comment leaves the scan where it was, outside quotes or inside another comment. */
  lemma {:induction false} RunParens(items: seq<CommentItem>, s: Scan)
    requires CommentOk(items) && s.Scan? && (s.mode == Plain || s.mode.Comment?)
    ensures Run(s, "(" + CommentText(items) + ")") == s
    decreases items, 1
  {
    var d := if s.mode == Plain then 0 else s.mode.depth + 1;
    RunAppend(s, "(" + CommentText(items), ")");
    RunAppend(s, "(", CommentText(items));
    RunChar(s, '(');
    RunComment(items, d, s.out);
    RunChar(Scan(Comment(d), s.out), ')');
  }

  lemma RunQuotedString(items: seq<QuotedItem>, out: string)
    requires QuotedOk(items)
    ensures Run(Scan(Plain, out), "\"" + QuotedText(items) + "\"")
        == Scan(Plain, out + ("\"" + QuotedText(items) + "\""))
  {
    var s, inner := Scan(Plain, out), QuotedText(items);
    RunAppend(s, "\"" + inner, "\"");
    RunAppend(s, "\"", inner);
    RunChar(s, '"');
    RunQuoted(items, out + "\"");
    RunChar(Scan(Quote, out + "\"" + inner), '"');
    Assoc(out, "\"", inner);
    Assoc(out, "\"" + inner, "\"");
  }

  lemma RunEscaped(c: char, out: string)
    ensures Run(Scan(Plain, out), ['\\', c]) == Scan(Plain, out + ['\\', c])
  {
    RunPair(Scan(Plain, out), '\\', c);
    Assoc(out, ['\\'], [c]);
    assert ['\\'] + [c] == ['\\', c];
  }

  lemma RunPiece(p: Piece, out: string)
    requires PieceOk(p)
    ensures Run(Scan(Plain, out), PieceText(p)) == Scan(Plain, out + if p.CommentPiece? then "" else PieceText(p))
  {
    match p
    case Char(c) => RunChar(Scan(Plain, out), c);
    case Pair(c) => RunEscaped(c, out);
    case QuotedString(items) => RunQuotedString(items, out);
    case CommentPiece(items) =>
      RunParens(items, Scan(Plain, out));
      assert out + "" == out;
  }

  lemma {:induction false} RunPieces(pieces: seq<Piece>, out: string)
    requires forall i :: 0 <= i < |pieces| ==> PieceOk(pieces[i])
    ensures Run(Scan(Plain, out), PiecesText(pieces)) == Scan(Plain, out + PiecesVisible(pieces))
    decreases |pieces|
  {
    if pieces == [] {
      assert out + "" == out;
    } else {
      var visible := if pieces[0].CommentPiece? then "" else PieceText(pieces[0]);
      RunAppend(Scan(Plain, out), PieceText(pieces[0]), PiecesText(pieces[1..]));
      RunPiece(pieces[0], out);
      RunPieces(pieces[1..], out + visible);
      Assoc(out, visible, PiecesVisible(pieces[1..]));
    }
  }

  lemma GrammarAccepted(v: Value)
    requires ValueOk(v)
    ensures Stripped(ValueText(v)) == Some(ValueVisible(v))
  {
    RunPieces(v.pieces, "");
    var tail := if v.dangling then "\\" else "";
    RunAppend(START, PiecesText(v.pieces), tail);
    assert "" + PiecesVisible(v.pieces) == PiecesVisible(v.pieces);
    if v.dangling {
      RunChar(Scan(Plain, PiecesVisible(v.pieces)), '\\');
    } else {
      assert PiecesVisible(v.pieces) + "" == PiecesVisible(v.pieces);
    }
  }

  // ---------- The grammar prints what the scan accepts ----------

  /** A quoted string that the scan sees closed has well-formed content up to its closing quote. */
  lemma {:induction false} ParseQuoted(s: string, out: string) returns (items: seq<QuotedItem>, rest: string)
    requires Finish(Run(Scan(Quote, out), s)).Some?
    ensures QuotedOk(items) && s == QuotedText(items) + "\"" + rest && |rest| < |s|
    decreases |s|
  {
    assert s != "";
    if s[0] == '"' {
      items, rest := [], s[1..];
    } else if s[0] == '\\' {
      assert s[1..] != "";
      assert s[1..][0] == s[1] && s[1..][1..] == s[2..];
      var more, tail := ParseQuoted(s[2..], out + [s[0]] + [s[1]]);
      items, rest := [QuotedPair(s[1])] + more, tail;
      assert items[1..] == more;
      assert s == ['\\', s[1]] + s[2..];
    } else {
      var more, tail := ParseQuoted(s[1..], out + [s[0]]);
      items, rest := [QuotedChar(s[0])] + more, tail;
      assert items[1..] == more;
      assert s == [s[0]] + s[1..];
    }
  }

  lemma AfterNested(s: string, inner: seq<CommentItem>, after: string, d: nat, out: string)
    requires CommentOk(inner) && s == CommentText(inner) + ")" + after
    ensures Run(Scan(Comment(d + 1), out), s) == Run(Scan(Comment(d), out), after)
  {
    var start := Scan(Comment(d + 1), out);
    RunAppend(start, CommentText(inner) + ")", after);
    RunAppend(start, CommentText(inner), ")");
    RunComment(inner, d + 1, out);
    RunChar(start, ')');
  }

  lemma NestedText(s: string, inner: seq<CommentItem>, after: string, more: seq<CommentItem>, tail: string)
    requires s != "" && s[0] == '(' && s[1..] == CommentText(inner) + ")" + after
        && after == CommentText(more) + ")" + tail
    ensures s == CommentText([Nested(inner)] + more) + ")" + tail
  {
    assert ([Nested(inner)] + more)[1..] == more;
    assert s == "(" + s[1..];
  }

  /** A comment that the scan sees closed has well-formed content up to its closing parenthesis. */
  lemma {:induction false} ParseComment(s: string, d: nat, out: string) returns (items: seq<CommentItem>, rest: string)
    requires Finish(Run(Scan(Comment(d), out), s)).Some?
    ensures CommentOk(items) && s == CommentText(items) + ")" + rest && |rest| < |s|
    decreases |s|
  {
    assert s != "";
    if s[0] == ')' {
      items, rest := [], s[1..];
    } else if s[0] == '\\' {
      assert s[1..] != "";
      assert s[1..][0] == s[1] && s[1..][1..] == s[2..];
      var more, tail := ParseComment(s[2..], d, out);
      items, rest := [CommentPair(s[1])] + more, tail;
      assert items[1..] == more;
      assert s == ['\\', s[1]] + s[2..];
    } else if s[0] == '(' {
      var inner, after := ParseComment(s[1..], d + 1, out);
      AfterNested(s[1..], inner, after, d, out);
      var more, tail := ParseComment(after, d, out);
      items, rest := [Nested(inner)] + more, tail;
      assert items[1..] == more;
      NestedText(s, inner, after, more, tail);
    } else {
      var more, tail := ParseComment(s[1..], d, out);
      items, rest := [CommentChar(s[0])] + more, tail;
      assert items[1..] == more;
      assert s == [s[0]] + s[1..];
    }
  }

  lemma {:induction false} ParseValue(s: string, out: string) returns (v: Value)
    requires Finish(Run(Scan(Plain, out), s)).Some?
    ensures ValueOk(v) && ValueText(v) == s
    decreases |s|
  {
    if s == "" {
      v := Value([], false);
    } else if s == "\\" {
      v := Value([], true);
    } else {
      var piece, rest, visible := FirstPiece(s, out);
      var more := ParseValue(rest, out + visible);
      v := Value([piece] + more.pieces, more.dangling);
      assert v.pieces[1..] == more.pieces;
      assert ValueText(v) == PieceText(piece) + ValueText(more);
    }
  }

  lemma FirstPiece(s: string, out: string) returns (piece: Piece, rest: string, visible: string)
    requires s != "" && s != "\\" && Finish(Run(Scan(Plain, out), s)).Some?
    ensures PieceOk(piece) && s == PieceText(piece) + rest && |rest| < |s|
    ensures Finish(Run(Scan(Plain, out + visible), rest)).Some?
  {
    if s[0] == '\\' {
      piece, rest := Pair(s[1]), s[2..];
      assert s == ['\\', s[1]] + s[2..];
    } else if s[0] == '"' {
      var items, tail := ParseQuoted(s[1..], out + [s[0]]);
      piece, rest := QuotedString(items), tail;
      assert s == "\"" + s[1..];
      assert s == PieceText(piece) + rest;
    } else if s[0] == '(' {
      var items, tail := ParseComment(s[1..], 0, out);
      piece, rest := CommentPiece(items), tail;
      assert s == "(" + s[1..];
      assert s == PieceText(piece) + rest;
    } else {
      BadStays(s[1..]);
      piece, rest := Char(s[0]), s[1..];
      assert s == [s[0]] + s[1..];
    }
    visible := if piece.CommentPiece? then "" else PieceText(piece);
    RunAppend(Scan(Plain, out), PieceText(piece), rest);
    RunPiece(piece, out);
  }

  /** The scan returns null exactly on the values the grammar does not derive, and otherwise the derived value
      without its comments. */
  lemma StrippedIffGrammar(s: string)
    ensures Stripped(s).Some? <==> exists v :: ValueOk(v) && ValueText(v) == s
    ensures forall v :: ValueOk(v) && ValueText(v) == s ==> Stripped(s) == Some(ValueVisible(v))
  {
    if Stripped(s).Some? {
      var v := ParseValue(s, "");
      assert ValueOk(v) && ValueText(v) == s;
    }
    forall v | ValueOk(v) && ValueText(v) == s ensures Stripped(s) == Some(ValueVisible(v)) {
      GrammarAccepted(v);
    }
  }

  // ---------- Consequences ----------

  function WithoutComments(pieces: seq<Piece>): seq<Piece> {
    if pieces == [] then []
    else if pieces[0].CommentPiece? then WithoutComments(pieces[1..])
    else [pieces[0]] + WithoutComments(pieces[1..])
  }

  lemma {:induction false} WithoutCommentsText(pieces: seq<Piece>)
    requires forall i :: 0 <= i < |pieces| ==> PieceOk(pieces[i])
    ensures forall i :: 0 <= i < |WithoutComments(pieces)| ==> PieceOk(WithoutComments(pieces)[i])
    ensures PiecesText(WithoutComments(pieces)) == PiecesVisible(pieces)
    ensures PiecesVisible(WithoutComments(pieces)) == PiecesVisible(pieces)
    decreases |pieces|
  {
    if pieces != [] {
      WithoutCommentsText(pieces[1..]);
      if !pieces[0].CommentPiece? {
        assert WithoutComments(pieces)[1..] == WithoutComments(pieces[1..]);
      }
    }
  }

  /** Stripping a stripped value changes nothing. */
  lemma StrippedIdempotent(s: string)
    requires Stripped(s).Some?
    ensures Stripped(Stripped(s).value) == Stripped(s)
  {
    var v := ParseValue(s, "");
    GrammarAccepted(v);
    WithoutCommentsText(v.pieces);
    GrammarAccepted(Value(WithoutComments(v.pieces), v.dangling));
  }

  /** A balanced comment may be inserted, without any effect, at every point that is not quoted and not escaped. */
  lemma CommentInsertion(a: string, items: seq<CommentItem>, b: string)
    requires CommentOk(items)
    requires Run(START, a).Scan? && (Run(START, a).mode == Plain || Run(START, a).mode.Comment?)
    ensures Stripped(a + ("(" + CommentText(items) + ")") + b) == Stripped(a + b)
  {
    var comment := "(" + CommentText(items) + ")";
    RunAppend(START, a + comment, b);
    RunAppend(START, a, comment);
    RunAppend(START, a, b);
    RunParens(items, Run(START, a));
  }
}
