/**
 Finding the closing parenthesis of a call and splitting its arguments, minding quotes,
 escapes and nested brackets.
 */
module ArgumentScanner {
  import opened Wrappers
  import opened Text

  // ----- quotes -----

  datatype Quoting = Quoting(quote: Option<char>, escaped: bool)

  const OUTSIDE := Quoting(None, false)

  predicate IsQuote(ch: char) {
    ch == '\'' || ch == '"' || ch == '`'
  }

  // The quote state after one more character.
  function Advance(q: Quoting, ch: char): Quoting {
    match q.quote
    case None => if IsQuote(ch) then q.(quote := Some(ch)) else q
    case Some(quote) =>
      if q.escaped then q.(escaped := false)
      else if ch == '\\' then q.(escaped := true)
      else if ch == quote then q.(quote := None)
      else q
  }

  // Neither inside quotes nor a quote itself.
  predicate IsCode(q: Quoting, ch: char) {
    q.quote.None? && !IsQuote(ch)
  }

  class QuoteScanState {
    var quote: Option<char>
    var escaped: bool

    ghost function View(): Quoting
      reads this
    {
      Quoting(quote, escaped)
    }

    constructor ()
      ensures View() == OUTSIDE
    {
      quote, escaped := None, false;
    }

    method BeginQuotedSection(ch: char) returns (began: bool)
      requires quote.None?
      modifies this
      ensures began <==> IsQuote(ch)
      ensures View() == Advance(old(View()), ch)
    {
      if ch != '\'' && ch != '"' && ch != '`' {
        return false;
      }
      quote := Some(ch);
      return true;
    }

    method ConsumeQuotedChar(ch: char) returns (consumed: bool)
      modifies this
      ensures consumed <==> old(quote).Some?
      ensures View() == if consumed then Advance(old(View()), ch) else old(View())
    {
      if quote.None? {
        return false;
      }
      if escaped {
        escaped := false;
        return true;
      }
      if ch == '\\' {
        escaped := true;
        return true;
      }
      if ch == quote.value {
        quote := None;
      }
      return true;
    }
  }

  // ----- matching parentheses -----

  // How many more parentheses the code in `s` opens than closes.
  function Height(s: string, q: Quoting): int {
    if s == "" then 0
    else Delta(s[0], q) + Height(s[1..], Advance(q, s[0]))
  }

  function Delta(ch: char, q: Quoting): int {
    if IsCode(q, ch) && ch == '(' then 1 else if IsCode(q, ch) && ch == ')' then -1 else 0
  }

  function QuotingAfter(s: string, q: Quoting): Quoting {
    if s == "" then q else QuotingAfter(s[1..], Advance(q, s[0]))
  }

  lemma {:induction false} AfterOneMore(s: string, ch: char, q: Quoting)
    ensures Height(s + [ch], q) == Height(s, q) + Delta(ch, QuotingAfter(s, q))
    ensures QuotingAfter(s + [ch], q) == Advance(QuotingAfter(s, q), ch)
  {
    if s == "" {
      assert s + [ch] == [ch];
    } else {
      assert (s + [ch])[1..] == s[1..] + [ch];
      AfterOneMore(s[1..], ch, Advance(q, s[0]));
    }
  }

  // No part of the text from its start closes more parentheses than it opens.
  ghost predicate StaysOpen(s: string) {
    forall j | 0 <= j <= |s| :: Height(s[..j], OUTSIDE) >= 0
  }

  // `at` is the first position of `s` at which its code closes a parenthesis opened before
  // it; -1 says there is none.
  ghost predicate FirstClose(s: string, at: int) {
    && -1 <= at < |s|
    && (at == -1 ==> StaysOpen(s))
    && (at >= 0 ==> s[at] == ')' && StaysOpen(s[..at]) && Height(s[..at + 1], OUTSIDE) == -1)
  }

  // For every text, the position returned is the first at which the code after the opening
  // parenthesis has closed it; there is none exactly when -1 is returned.
  method FindMatchingParen(source: string, openIndex: nat) returns (closeIndex: int)
    requires openIndex < |source|
    ensures closeIndex == -1 || openIndex < closeIndex < |source|
    ensures FirstClose(source[openIndex + 1..], if closeIndex == -1 then -1 else closeIndex - openIndex - 1)
  {
    var depth := 1;
    var quoteState := new QuoteScanState();
    ghost var rest := source[openIndex + 1..];
    for i := openIndex + 1 to |source|
      invariant fresh(quoteState)
      invariant depth == 1 + Height(rest[..i - openIndex - 1], OUTSIDE) && depth >= 1
      invariant quoteState.View() == QuotingAfter(rest[..i - openIndex - 1], OUTSIDE)
      invariant StaysOpen(rest[..i - openIndex - 1])
    {
      var ch := source[i];
      ghost var n := i - openIndex - 1;
      AfterOneMore(rest[..n], ch, OUTSIDE);
      assert rest[..n + 1] == rest[..n] + [ch];
      OpenForOneMore(rest[..n], ch);
      var consumed := quoteState.ConsumeQuotedChar(ch);
      if consumed {
        continue;
      }
      var began := quoteState.BeginQuotedSection(ch);
      if began {
        continue;
      }
      if ch == '(' {
        depth := depth + 1;
        continue;
      }
      if ch == ')' {
        depth := depth - 1;
        if depth == 0 {
          return i;
        }
      }
    }
    assert rest[..|rest|] == rest;
    return -1;
  }

  lemma OpenForOneMore(s: string, ch: char)
    requires StaysOpen(s)
    ensures Height(s + [ch], OUTSIDE) >= 0 ==> StaysOpen(s + [ch])
  {
    forall j | 0 <= j <= |s| ensures (s + [ch])[..j] == s[..j] {}
    assert (s + [ch])[..|s| + 1] == s + [ch];
  }

  // ----- splitting -----

  // The splitter's variables; `pieces` holds the arguments closed so far, untrimmed.
  datatype Split = Split(pieces: seq<string>, current: string, parens: nat, brackets: nat, braces: nat,
                         quoting: Quoting)

  const START := Split([], "", 0, 0, 0, OUTSIDE)

  predicate TopLevel(st: Split) {
    st.parens == 0 && st.brackets == 0 && st.braces == 0
  }

  function Down(n: nat): nat {
    if n > 0 then n - 1 else 0
  }

  function Step(st: Split, ch: char): Split {
    if IsCode(st.quoting, ch) && ch == ',' && TopLevel(st) then
      st.(pieces := st.pieces + [st.current], current := "")
    else
      var kept := st.(current := st.current + [ch], quoting := Advance(st.quoting, ch));
      if !IsCode(st.quoting, ch) then kept
      else
        match ch
        case '(' => kept.(parens := st.parens + 1)
        case ')' => kept.(parens := Down(st.parens))
        case '[' => kept.(brackets := st.brackets + 1)
        case ']' => kept.(brackets := Down(st.brackets))
        case '{' => kept.(braces := st.braces + 1)
        case '}' => kept.(braces := Down(st.braces))
        case _ => kept
  }

  function Scan(st: Split, s: string): Split
    decreases |s|
  {
    if s == "" then st else Scan(Step(st, s[0]), s[1..])
  }

  function Trims(pieces: seq<string>): seq<string> {
    seq(|pieces|, i requires 0 <= i < |pieces| => Trim(pieces[i]))
  }

  // The arguments of a finished scan: blank ones count except at the end.
  function Arguments(st: Split): seq<string> {
    Trims(st.pieces) + if Trim(st.current) != "" then [Trim(st.current)] else []
  }

  method SplitTopLevelArguments(source: string) returns (out: seq<string>)
    ensures out == Arguments(Scan(START, source))
  {
    out := [];
    var current := "";
    var parenDepth, bracketDepth, braceDepth := 0, 0, 0;
    var quoteState := new QuoteScanState();
    ghost var pieces: seq<string> := [];
    for i := 0 to |source|
      invariant fresh(quoteState) && out == Trims(pieces)
      invariant parenDepth >= 0 && bracketDepth >= 0 && braceDepth >= 0
      invariant Scan(Split(pieces, current, parenDepth, bracketDepth, braceDepth, quoteState.View()), source[i..])
             == Scan(START, source)
    {
      var ch := source[i];
      assert source[i..][1..] == source[i + 1..];
      if quoteState.quote.Some? {
        current := current + [ch];
        var _ := quoteState.ConsumeQuotedChar(ch);
        continue;
      }
      var began := quoteState.BeginQuotedSection(ch);
      if began {
        current := current + [ch];
        continue;
      }
      if ch == ',' && parenDepth == 0 && bracketDepth == 0 && braceDepth == 0 {
        out := out + [Trim(current)];
        pieces := pieces + [current];
        current := "";
        continue;
      }
      match ch {
        case '(' => parenDepth := parenDepth + 1;
        case ')' => parenDepth := Down(parenDepth);
        case '[' => bracketDepth := bracketDepth + 1;
        case ']' => bracketDepth := Down(bracketDepth);
        case '{' => braceDepth := braceDepth + 1;
        case '}' => braceDepth := Down(braceDepth);
        case _ =>
      }
      current := current + [ch];
    }
    if Trim(current) != "" {
      out := out + [Trim(current)];
    }
  }

  function Join(pieces: seq<string>): string {
    if pieces == [] then "" else if |pieces| == 1 then pieces[0]
    else pieces[0] + "," + Join(pieces[1..])
  }

  lemma {:induction false} JoinSnoc(pieces: seq<string>, last: string, more: string)
    ensures Join(pieces + [last + more]) == Join(pieces + [last]) + more
    ensures Join(pieces + [last, ""]) == Join(pieces + [last]) + ","
  {
    if pieces == [] {
      assert [] + [last] == [last] && [] + [last + more] == [last + more] && [] + [last, ""] == [last, ""];
      assert [last, ""][1..] == [""];
    } else {
      assert (pieces + [last + more])[1..] == pieces[1..] + [last + more];
      assert (pieces + [last])[1..] == pieces[1..] + [last];
      assert (pieces + [last, ""])[1..] == pieces[1..] + [last, ""];
      JoinSnoc(pieces[1..], last, more);
    }
  }

  // Splitting loses nothing: for every text, the untrimmed pieces joined with commas are it.
  lemma {:induction false} SplitConserves(st: Split, s: string)
    ensures Join(Scan(st, s).pieces + [Scan(st, s).current]) == Join(st.pieces + [st.current]) + s
    decreases |s|
  {
    if s != "" {
      SplitConserves(Step(st, s[0]), s[1..]);
      JoinSnoc(st.pieces, st.current, [s[0]]);
      assert s == [s[0]] + s[1..];
      assert st.pieces + [st.current] + [""] == st.pieces + [st.current, ""];
    }
  }

  // ----- where any text is cut -----

  datatype Kind = Paren | Bracket | Brace

  // What a character of code does to the brackets of one kind.
  function Turn(kind: Kind, ch: char, q: Quoting): int {
    if q.quote.Some? || IsQuote(ch) then 0
    else
      match kind
      case Paren => if ch == '(' then 1 else if ch == ')' then -1 else 0
      case Bracket => if ch == '[' then 1 else if ch == ']' then -1 else 0
      case Brace => if ch == '{' then 1 else if ch == '}' then -1 else 0
  }

  // How many more brackets of this kind the code in `s` opens than closes.
  function Balance(kind: Kind, s: string): int {
    if s == "" then 0
    else
      var front := s[..|s| - 1];
      Balance(kind, front) + Turn(kind, s[|s| - 1], QuotingAfter(front, OUTSIDE))
  }

  // The text never was lower before: no bracket of this kind is open at its end.
  ghost predicate AtLowest(kind: Kind, s: string) {
    forall j | 0 <= j <= |s| :: Balance(kind, s) <= Balance(kind, s[..j])
  }

  // A comma of code outside all brackets that are open, stray closing brackets not counting.
  ghost predicate CutAt(s: string, n: nat)
    requires n < |s|
  {
    && s[n] == ',' && QuotingAfter(s[..n], OUTSIDE).quote.None?
    && forall kind :: AtLowest(kind, s[..n])
  }

  function Depth(kind: Kind, st: Split): nat {
    match kind case Paren => st.parens case Bracket => st.brackets case Brace => st.braces
  }

  // This many brackets are open: so much higher is the text than at its lowest.
  ghost predicate Rises(kind: Kind, s: string, depth: nat) {
    && (forall j | 0 <= j <= |s| :: Balance(kind, s) - Balance(kind, s[..j]) <= depth)
    && exists j :: 0 <= j <= |s| && Balance(kind, s) - Balance(kind, s[..j]) == depth
  }

  lemma BalanceOneMore(kind: Kind, s: string, ch: char)
    ensures Balance(kind, s + [ch]) == Balance(kind, s) + Turn(kind, ch, QuotingAfter(s, OUTSIDE))
    ensures forall j | 0 <= j <= |s| :: (s + [ch])[..j] == s[..j]
    ensures (s + [ch])[..|s| + 1] == s + [ch]
  {
    assert (s + [ch])[..|s|] == s;
  }

  lemma RiseOneMore(kind: Kind, s: string, ch: char, depth: nat)
    requires Rises(kind, s, depth)
    ensures
      var turn := Turn(kind, ch, QuotingAfter(s, OUTSIDE));
      Rises(kind, s + [ch], if depth + turn < 0 then 0 else depth + turn)
  {
    forall j | 0 <= j <= |s| + 1 {
      RiseWithin(kind, s, ch, depth, j);
    }
    var k := RiseFrom(kind, s, ch, depth);
  }

  lemma RiseWithin(kind: Kind, s: string, ch: char, depth: nat, j: nat)
    requires Rises(kind, s, depth) && j <= |s| + 1
    ensures
      var all, turn := s + [ch], Turn(kind, ch, QuotingAfter(s, OUTSIDE));
      Balance(kind, all) - Balance(kind, all[..j]) <= if depth + turn < 0 then 0 else depth + turn
  {
    BalanceOneMore(kind, s, ch);
    if j <= |s| {
      assert Balance(kind, s) - Balance(kind, s[..j]) <= depth;
    }
  }

  lemma RiseFrom(kind: Kind, s: string, ch: char, depth: nat) returns (k: nat)
    requires Rises(kind, s, depth)
    ensures
      var all, turn := s + [ch], Turn(kind, ch, QuotingAfter(s, OUTSIDE));
      k <= |all| && Balance(kind, all) - Balance(kind, all[..k]) == if depth + turn < 0 then 0 else depth + turn
  {
    BalanceOneMore(kind, s, ch);
    if depth + Turn(kind, ch, QuotingAfter(s, OUTSIDE)) < 0 {
      k := |s| + 1;
    } else {
      k :| 0 <= k <= |s| && Balance(kind, s) - Balance(kind, s[..k]) == depth;
    }
  }

  // The splitter's counters are these heights, for every text, however unbalanced.
  lemma {:induction false} DepthsAre(s: string)
    ensures Scan(START, s).quoting == QuotingAfter(s, OUTSIDE)
    ensures forall kind :: Rises(kind, s, Depth(kind, Scan(START, s)))
    decreases |s|
  {
    if s == "" {
      assert ""[..0] == "";
    } else {
      var front, ch := s[..|s| - 1], s[|s| - 1];
      assert s == front + [ch];
      DepthsAre(front);
      ScanAppend(START, front, [ch]);
      AfterOneMore(front, ch, OUTSIDE);
      forall kind ensures Rises(kind, s, Depth(kind, Scan(START, s))) {
        RiseOneMore(kind, front, ch, Depth(kind, Scan(START, front)));
        StepTurns(kind, Scan(START, front), ch);
      }
    }
  }

  lemma StepTurns(kind: Kind, st: Split, ch: char)
    ensures
      var turned := Depth(kind, st) + Turn(kind, ch, st.quoting);
      Depth(kind, Step(st, ch)) == if turned < 0 then 0 else turned
  {
  }

  // A text is cut exactly at its commas of code outside all brackets.
  lemma CutsExactly(s: string, n: nat)
    requires n < |s|
    ensures
      var before, after := Scan(START, s[..n]), Scan(START, s[..n + 1]);
      if CutAt(s, n) then after.pieces == before.pieces + [before.current] && after.current == ""
      else after.pieces == before.pieces && after.current == before.current + [s[n]]
  {
    var st := Scan(START, s[..n]);
    assert s[..n + 1] == s[..n] + [s[n]];
    DepthsAre(s[..n]);
    ScanAppend(START, s[..n], [s[n]]);
    forall kind ensures AtLowest(kind, s[..n]) <==> Depth(kind, st) == 0 {
    }
    assert TopLevel(st) <==> Depth(Paren, st) == 0 && Depth(Bracket, st) == 0 && Depth(Brace, st) == 0;
  }

  // ----- printing -----

  datatype QuotedChar = Raw(c: char) | Escaped(c: char)

  // Source text: a character of code, a quoted string, or a bracketed group.
  datatype Piece = Code(c: char) | Quoted(quote: char, body: seq<QuotedChar>) | Group(open: char, inner: Pieces)

  datatype Pieces = Nil | Cons(head: Piece, tail: Pieces)

  function Closer(open: char): char {
    match open case '(' => ')' case '[' => ']' case _ => '}'
  }

  function PrintBody(body: seq<QuotedChar>): string {
    if body == [] then ""
    else (match body[0] case Raw(c) => [c] case Escaped(c) => ['\\', c]) + PrintBody(body[1..])
  }

  function PrintPiece(p: Piece): string {
    match p
    case Code(c) => [c]
    case Quoted(quote, body) => [quote] + PrintBody(body) + [quote]
    case Group(open, inner) => [open] + Print(inner) + [Closer(open)]
  }

  function Print(ps: Pieces): string {
    match ps case Nil => "" case Cons(p, tail) => PrintPiece(p) + Print(tail)
  }

  predicate IsBracket(c: char) {
    c in "()[]{}"
  }

  predicate ValidPiece(p: Piece, inGroup: bool) {
    match p
    case Code(c) => !IsQuote(c) && !IsBracket(c) && (c == ',' ==> inGroup)
    case Quoted(quote, body) =>
      IsQuote(quote) && forall i | 0 <= i < |body| && body[i].Raw? :: body[i].c != quote && body[i].c != '\\'
    case Group(open, inner) => open in "([{" && ValidPieces(inner, true)
  }

  // Commas may stand bare only inside groups.
  predicate ValidPieces(ps: Pieces, inGroup: bool) {
    ps.Cons? ==> ValidPiece(ps.head, inGroup) && ValidPieces(ps.tail, inGroup)
  }

  // An argument: code with no comma of its own, and no white space at its ends.
  predicate ValidArgument(ps: Pieces) {
    ValidPieces(ps, false) && Trimmed(Print(ps))
  }

  // ----- scanning what was printed -----

  lemma {:induction false} ScanAppend(st: Split, a: string, b: string)
    ensures Scan(st, a + b) == Scan(Scan(st, a), b)
    decreases |a|
  {
    if a == "" {
      assert a + b == b;
    } else {
      assert (a + b)[1..] == a[1..] + b;
      ScanAppend(Step(st, a[0]), a[1..], b);
    }
  }

  function Keep(st: Split, s: string): Split {
    st.(current := st.current + s)
  }

  lemma KeepTwice(st: Split, a: string, b: string)
    ensures Keep(Keep(st, a), b) == Keep(st, a + b)
  {
    assert st.current + a + b == st.current + (a + b);
  }

  lemma {:induction false} ScanBody(st: Split, quote: char, body: seq<QuotedChar>)
    requires st.quoting == Quoting(Some(quote), false)
    requires forall i | 0 <= i < |body| && body[i].Raw? :: body[i].c != quote && body[i].c != '\\'
    ensures Scan(st, PrintBody(body)) == Keep(st, PrintBody(body))
    decreases |body|
  {
    if body == [] {
      assert st.current + "" == st.current;
    } else {
      var first := match body[0] case Raw(c) => [c] case Escaped(c) => ['\\', c];
      ScanAppend(st, first, PrintBody(body[1..]));
      assert Scan(st, first) == Keep(st, first) by {
        if body[0].Escaped? {
          ScanAppend(st, ['\\'], [body[0].c]);
          KeepTwice(st, ['\\'], [body[0].c]);
          assert first == ['\\'] + [body[0].c];
        }
      }
      ScanBody(Keep(st, first), quote, body[1..]);
      KeepTwice(st, first, PrintBody(body[1..]));
    }
  }

  // Text between two characters, scanned without changing anything but the current argument.
  lemma ScanAround(st: Split, a: char, text: string, b: char)
    requires Scan(Step(st, a), text) == Keep(Step(st, a), text)
    ensures Scan(st, [a] + text + [b]) == Step(Keep(Step(st, a), text), b)
  {
    ScanAppend(st, [a] + text, [b]);
    ScanAppend(st, [a], text);
  }

  lemma ScanQuoted(st: Split, quote: char, text: string)
    requires st.quoting == OUTSIDE && IsQuote(quote)
    requires Scan(Step(st, quote), text) == Keep(Step(st, quote), text)
    ensures Scan(st, [quote] + text + [quote]) == Keep(st, [quote] + text + [quote])
  {
    ScanAround(st, quote, text, quote);
    KeepThrice(st, [quote], text, [quote]);
  }

  lemma ScanGroup(st: Split, open: char, text: string)
    requires st.quoting == OUTSIDE && open in "([{"
    requires Scan(Step(st, open), text) == Keep(Step(st, open), text)
    ensures Scan(st, [open] + text + [Closer(open)]) == Keep(st, [open] + text + [Closer(open)])
  {
    ScanAround(st, open, text, Closer(open));
    KeepThrice(st, [open], text, [Closer(open)]);
  }

  lemma KeepThrice(st: Split, a: string, b: string, c: string)
    ensures st.current + a + b + c == Keep(st, a + b + c).current
  {
    assert st.current + a + b + c == st.current + (a + b + c);
  }

  lemma {:induction false} ScanPiece(st: Split, p: Piece, inGroup: bool)
    requires st.quoting == OUTSIDE && ValidPiece(p, inGroup) && (inGroup ==> !TopLevel(st))
    ensures Scan(st, PrintPiece(p)) == Keep(st, PrintPiece(p))
    decreases p
  {
    match p
    case Code(c) =>
    case Quoted(quote, body) =>
      ScanBody(Step(st, quote), quote, body);
      ScanQuoted(st, quote, PrintBody(body));
    case Group(open, inner) =>
      ScanPieces(Step(st, open), inner, true);
      ScanGroup(st, open, Print(inner));
  }

  lemma {:induction false} ScanPieces(st: Split, ps: Pieces, inGroup: bool)
    requires st.quoting == OUTSIDE && ValidPieces(ps, inGroup) && (inGroup ==> !TopLevel(st))
    ensures Scan(st, Print(ps)) == Keep(st, Print(ps))
    decreases ps
  {
    match ps
    case Nil =>
      assert st.current + "" == st.current;
    case Cons(p, tail) =>
      ScanAppend(st, PrintPiece(p), Print(tail));
      ScanPiece(st, p, inGroup);
      ScanPieces(Keep(st, PrintPiece(p)), tail, inGroup);
      KeepTwice(st, PrintPiece(p), Print(tail));
  }

  lemma {:induction false} ScanBlank(st: Split, pad: string)
    requires st.quoting == OUTSIDE && Blank(pad)
    ensures Scan(st, pad) == Keep(st, pad)
    decreases |pad|
  {
    if pad == "" {
      assert st.current + "" == st.current;
    } else {
      assert IsSpace(pad[0]);
      ScanBlank(Step(st, pad[0]), pad[1..]);
      KeepTwice(st, [pad[0]], pad[1..]);
      assert pad == [pad[0]] + pad[1..];
    }
  }

  // One printed argument with white space around it.
  datatype Padded = Padded(before: string, argument: Pieces, after: string)

  predicate ValidPadded(a: Padded) {
    Blank(a.before) && ValidArgument(a.argument) && Blank(a.after)
  }

  function PrintPadded(a: Padded): string {
    a.before + Print(a.argument) + a.after
  }

  function PrintArguments(args: seq<Padded>): seq<string> {
    seq(|args|, i requires 0 <= i < |args| => PrintPadded(args[i]))
  }

  function Texts(args: seq<Padded>): seq<string> {
    seq(|args|, i requires 0 <= i < |args| => Print(args[i].argument))
  }

  lemma ScanPadded(st: Split, a: Padded)
    requires st.quoting == OUTSIDE && ValidPadded(a)
    ensures Scan(st, PrintPadded(a)) == Keep(st, PrintPadded(a))
  {
    ScanAppend(st, a.before + Print(a.argument), a.after);
    ScanAppend(st, a.before, Print(a.argument));
    ScanBlank(st, a.before);
    ScanPieces(Keep(st, a.before), a.argument, false);
    KeepTwice(st, a.before, Print(a.argument));
    ScanBlank(Keep(st, a.before + Print(a.argument)), a.after);
    KeepTwice(st, a.before + Print(a.argument), a.after);
  }

  // The splitter with these arguments closed and this one open.
  function Holding(closed: seq<string>, current: string): Split {
    START.(pieces := closed, current := current)
  }

  // Text the splitter takes into the current argument as it stands.
  ghost predicate Inert(text: string) {
    forall pieces :: Scan(Holding(pieces, ""), text) == Holding(pieces, text)
  }

  lemma PaddedIsInert(a: Padded)
    requires ValidPadded(a)
    ensures Inert(PrintPadded(a))
  {
    forall pieces
      ensures Scan(Holding(pieces, ""), PrintPadded(a)) == Holding(pieces, PrintPadded(a))
    {
      ScanPadded(Holding(pieces, ""), a);
      assert "" + PrintPadded(a) == PrintPadded(a);
    }
  }

  lemma ScanFirst(pieces: seq<string>, first: string, rest: string)
    requires Inert(first)
    ensures Scan(Holding(pieces, ""), first + "," + rest) == Scan(Holding(pieces + [first], ""), rest)
  {
    ScanAppend(Holding(pieces, ""), first + ",", rest);
    ScanAppend(Holding(pieces, ""), first, ",");
  }

  lemma JoinCons(first: string, closed: seq<string>, last: string)
    ensures Join([first] + closed + [last]) == first + "," + Join(closed + [last])
  {
    assert ([first] + closed + [last])[1..] == closed + [last];
  }

  lemma {:induction false} ScanJoined(pieces: seq<string>, closed: seq<string>, last: string)
    requires Inert(last) && forall i | 0 <= i < |closed| :: Inert(closed[i])
    ensures Scan(Holding(pieces, ""), Join(closed + [last])) == Holding(pieces + closed, last)
    decreases |closed|
  {
    if closed == [] {
      assert [] + [last] == [last] && pieces + [] == pieces;
    } else {
      var first, rest := closed[0], closed[1..];
      assert closed == [first] + rest;
      JoinCons(first, rest, last);
      ScanFirst(pieces, first, Join(rest + [last]));
      ScanJoined(pieces + [first], rest, last);
      assert pieces + [first] + rest == pieces + closed;
    }
  }

  lemma TrimsOfPrinted(args: seq<Padded>)
    requires forall i | 0 <= i < |args| :: ValidPadded(args[i])
    ensures Trims(PrintArguments(args)) == Texts(args)
    ensures forall i | 0 <= i < |args| :: Inert(PrintArguments(args)[i])
  {
    forall i | 0 <= i < |args|
      ensures Trims(PrintArguments(args))[i] == Texts(args)[i]
      ensures Inert(PrintArguments(args)[i])
    {
      TrimPadding(args[i].before, Print(args[i].argument), args[i].after);
      PaddedIsInert(args[i]);
    }
  }

  function DropBlankLast(texts: seq<string>): seq<string> {
    if texts != [] && texts[|texts| - 1] == "" then texts[..|texts| - 1] else texts
  }

  lemma SplitLast(printed: seq<string>) returns (closed: seq<string>, last: string)
    requires printed != []
    ensures closed + [last] == printed && last == printed[|printed| - 1]
    ensures |closed| == |printed| - 1 && forall i | 0 <= i < |closed| :: closed[i] == printed[i]
  {
    closed, last := printed[..|printed| - 1], printed[|printed| - 1];
  }

  lemma ScanPrinted(args: seq<Padded>) returns (closed: seq<string>, last: string)
    requires args != [] && forall i | 0 <= i < |args| :: ValidPadded(args[i])
    ensures closed + [last] == PrintArguments(args)
    ensures Scan(START, Join(PrintArguments(args))) == Holding(closed, last)
  {
    TrimsOfPrinted(args);
    closed, last := SplitLast(PrintArguments(args));
    ScanJoined([], closed, last);
    assert [] + closed == closed;
  }

  // Splitting undoes printing: any list of arguments, blank ones included and however padded,
  // comes back trimmed, except that a blank last one is dropped.
  lemma SplitInvertsPrint(args: seq<Padded>)
    requires forall i | 0 <= i < |args| :: ValidPadded(args[i])
    ensures Arguments(Scan(START, Join(PrintArguments(args)))) == DropBlankLast(Texts(args))
  {
    if args == [] {
      assert PrintArguments(args) == [];
    } else {
      var closed, last := ScanPrinted(args);
      TrimsOfPrinted(args);
    }
  }

  // A trailing comma adds no argument.
  lemma TrailingCommaIsDropped(args: seq<Padded>, pad: string)
    requires args != [] && Blank(pad) && forall i | 0 <= i < |args| :: ValidPadded(args[i])
    ensures Arguments(Scan(START, Join(PrintArguments(args)) + "," + pad)) == Texts(args)
  {
    var closed, last := ScanPrinted(args);
    TrimsOfPrinted(args);
    ScanComma(Join(PrintArguments(args)), closed, last, pad);
    TrimOfBlank(pad);
  }

  lemma ScanComma(text: string, closed: seq<string>, last: string, pad: string)
    requires Scan(START, text) == Holding(closed, last) && Blank(pad)
    ensures Scan(START, text + "," + pad) == Holding(closed + [last], pad)
  {
    ScanAppend(START, text + ",", pad);
    ScanAppend(START, text, ",");
    ScanBlank(Holding(closed + [last], ""), pad);
    assert "" + pad == pad;
  }

  // ----- matching what was printed -----

  lemma {:induction false} HeightAppend(a: string, b: string, q: Quoting)
    ensures Height(a + b, q) == Height(a, q) + Height(b, QuotingAfter(a, q))
    ensures QuotingAfter(a + b, q) == QuotingAfter(b, QuotingAfter(a, q))
    decreases |a|
  {
    if a == "" {
      assert a + b == b;
    } else {
      assert (a + b)[1..] == a[1..] + b;
      HeightAppend(a[1..], b, Advance(q, a[0]));
    }
  }

  // Text that leaves the parenthesis count as it was and never takes it below.
  ghost predicate Level(s: string, q: Quoting) {
    && QuotingAfter(s, q) == q && Height(s, q) == 0
    && forall j | 0 <= j <= |s| :: Height(s[..j], q) >= 0
  }

  lemma LevelAppend(a: string, b: string, q: Quoting)
    requires Level(a, q) && Level(b, q)
    ensures Level(a + b, q)
  {
    HeightAppend(a, b, q);
    forall j | 0 <= j <= |a + b| ensures Height((a + b)[..j], q) >= 0 {
      if j <= |a| {
        assert (a + b)[..j] == a[..j];
      } else {
        assert (a + b)[..j] == a + b[..j - |a|];
        HeightAppend(a, b[..j - |a|], q);
      }
    }
  }

  lemma LevelPair(a: char, b: char, q: Quoting)
    requires Advance(Advance(q, a), b) == q && Delta(a, q) == 0 && Delta(b, Advance(q, a)) == 0
    ensures Level([a, b], q)
  {
    assert [a, b] == [a] + [b] && [a] == "" + [a];
    AfterOneMore("", a, q);
    AfterOneMore([a], b, q);
    forall j | 0 <= j <= 2 ensures Height([a, b][..j], q) == 0 {
      assert [a, b][..j] == if j == 0 then "" else if j == 1 then [a] else [a, b];
    }
  }

  // Brackets or quotes around level text.
  lemma LevelAround(open: char, s: string, close: char, q: Quoting)
    requires Level(s, Advance(q, open)) && Advance(Advance(q, open), close) == q
    requires Delta(open, q) >= 0 && Delta(open, q) + Delta(close, Advance(q, open)) == 0
    ensures Level([open] + s + [close], q)
  {
    var all, q' := [open] + s + [close], Advance(q, open);
    assert [open][1..] == "" && [close][1..] == "";
    HeightAppend([open], s, q);
    HeightAppend([open] + s, [close], q);
    forall j | 0 <= j <= |all| ensures Height(all[..j], q) >= 0 {
      if j == 0 {
      } else if j <= |s| + 1 {
        assert all[..j] == [open] + s[..j - 1];
        HeightAppend([open], s[..j - 1], q);
      } else {
        assert all[..j] == all;
      }
    }
  }

  lemma {:induction false} LevelBody(quote: char, body: seq<QuotedChar>)
    requires forall i | 0 <= i < |body| && body[i].Raw? :: body[i].c != quote && body[i].c != '\\'
    ensures Level(PrintBody(body), Quoting(Some(quote), false))
    decreases |body|
  {
    if body != [] {
      var q := Quoting(Some(quote), false);
      LevelBody(quote, body[1..]);
      if body[0].Raw? {
        LevelAppend([body[0].c], PrintBody(body[1..]), q);
      } else {
        LevelPair('\\', body[0].c, q);
        LevelAppend(['\\', body[0].c], PrintBody(body[1..]), q);
      }
    }
  }

  lemma {:induction false} LevelPiece(p: Piece, inGroup: bool)
    requires ValidPiece(p, inGroup)
    ensures Level(PrintPiece(p), OUTSIDE)
    decreases p
  {
    match p
    case Code(c) =>
    case Quoted(quote, body) =>
      LevelBody(quote, body);
      LevelAround(quote, PrintBody(body), quote, OUTSIDE);
    case Group(open, inner) =>
      LevelPieces(inner, true);
      LevelAround(open, Print(inner), Closer(open), OUTSIDE);
  }

  lemma {:induction false} LevelPieces(ps: Pieces, inGroup: bool)
    requires ValidPieces(ps, inGroup)
    ensures Level(Print(ps), OUTSIDE)
    decreases ps
  {
    match ps
    case Nil =>
    case Cons(p, tail) =>
      LevelPiece(p, inGroup);
      LevelPieces(tail, inGroup);
      LevelAppend(PrintPiece(p), Print(tail), OUTSIDE);
  }

  lemma {:induction false} LevelBlank(pad: string)
    requires Blank(pad)
    ensures Level(pad, OUTSIDE)
    decreases |pad|
  {
    if pad != "" {
      assert IsSpace(pad[0]);
      LevelBlank(pad[1..]);
      LevelAppend([pad[0]], pad[1..], OUTSIDE);
      assert pad == [pad[0]] + pad[1..];
    }
  }

  lemma {:induction false} LevelArguments(args: seq<Padded>)
    requires forall i | 0 <= i < |args| :: ValidPadded(args[i])
    ensures Level(Join(PrintArguments(args)), OUTSIDE)
    decreases |args|
  {
    if args != [] {
      var a := args[0];
      LevelBlank(a.before);
      LevelPieces(a.argument, false);
      LevelBlank(a.after);
      LevelAppend(a.before, Print(a.argument), OUTSIDE);
      LevelAppend(a.before + Print(a.argument), a.after, OUTSIDE);
      if |args| > 1 {
        assert PrintArguments(args)[1..] == PrintArguments(args[1..]);
        LevelAppend(PrintPadded(a), ",", OUTSIDE);
        LevelArguments(args[1..]);
        LevelAppend(PrintPadded(a) + ",", Join(PrintArguments(args[1..])), OUTSIDE);
      }
    }
  }

  // Reading a printed call back: whatever stands around it, its closing parenthesis is found
  // and its arguments are recovered.
  method ReadCall(before: string, args: seq<Padded>, after: string) returns (arguments: seq<string>)
    requires forall i | 0 <= i < |args| :: ValidPadded(args[i])
    ensures arguments == DropBlankLast(Texts(args))
  {
    var body := Join(PrintArguments(args));
    var source := before + "(" + body + ")" + after;
    var open := |before|;
    var close := FindMatchingParen(source, open);
    LevelArguments(args);
    assert source[open + 1..] == body + ")" + after;
    ClosesAfter(body, after, if close == -1 then -1 else close - open - 1);
    assert source[open + 1..close] == body;
    SplitInvertsPrint(args);
    arguments := SplitTopLevelArguments(source[open + 1..close]);
  }

  lemma ClosesAfter(body: string, after: string, at: int)
    requires Level(body, OUTSIDE) && FirstClose(body + ")" + after, at)
    ensures at == |body|
  {
    var s, n := body + ")" + after, |body|;
    if at > n {
      OpenPrefix(s, at, n + 1);
    }
    forall j | 0 <= j <= n ensures Height(s[..j], OUTSIDE) >= 0 {
      assert s[..j] == body[..j];
    }
    assert s[..n + 1] == body + ")";
    AfterOneMore(body, ')', OUTSIDE);
  }

  lemma OpenPrefix(s: string, at: nat, m: nat)
    requires m <= at <= |s| && StaysOpen(s[..at])
    ensures Height(s[..m], OUTSIDE) >= 0
  {
    assert s[..at][..m] == s[..m];
  }
}
