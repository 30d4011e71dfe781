/** CMatch: finding `NAME ( ... )` spans in a token list by nesting level, and replacing
    them. Tokens are taken as given; the regular expression is a predicate on names. */
module TokenMatch {
  import opened Options

  datatype Bracket = Paren | Square | Brace

  /** A token before levels are known. */
  datatype Lexeme = Open(b: Bracket) | Close(b: Bracket) | Name(text: string) | Space | Rest(text: string)

  datatype Level = Level(square: nat, paren: nat, brace: nat)

  datatype Token = Token(lex: Lexeme, level: Level)

  datatype Span = Span(start: nat, end: nat)

  // Levels.

  const OUTSIDE := Level(0, 0, 0)

  /** One turn of _tokenize()'s counters. A stray `)` or `]` falls through to the brace
      counter, as in the program. */
  function LevelAfter(l: Level, x: Lexeme): Level {
    match x
    case Open(Paren) => l.(paren := l.paren + 1)
    case Open(Square) => l.(square := l.square + 1)
    case Open(Brace) => l.(brace := l.brace + 1)
    case Close(b) =>
      if b == Paren && l.paren > 0 then l.(paren := l.paren - 1)
      else if b == Square && l.square > 0 then l.(square := l.square - 1)
      else if l.brace > 0 then l.(brace := l.brace - 1)
      else l
    case _ => l
  }

  /** A stray `)` or `]` counts as a `}`, and a stray `}` as nothing. */
  lemma StrayCloses(l: Level)
    ensures l.paren == 0 ==> LevelAfter(l, Close(Paren)) == LevelAfter(l, Close(Brace))
    ensures l.square == 0 ==> LevelAfter(l, Close(Square)) == LevelAfter(l, Close(Brace))
    ensures LevelAfter(l, Close(Brace)) == l.(brace := if l.brace == 0 then 0 else l.brace - 1)
  {}

  function LevelAt(lex: seq<Lexeme>, k: nat): Level
    requires k <= |lex|
  {
    if k == 0 then OUTSIDE else LevelAfter(LevelAt(lex, k - 1), lex[k - 1])
  }

  /** The level recorded on token i: the one after it. */
  function LevelOn(lex: seq<Lexeme>, i: nat): Level
    requires i < |lex|
  {
    LevelAfter(LevelAt(lex, i), lex[i])
  }

  /** The token list _tokenize() yields. */
  ghost predicate Levelled(tokens: seq<Token>, lex: seq<Lexeme>) {
    && |tokens| == |lex|
    && forall i {:trigger tokens[i]} :: 0 <= i < |lex| ==> tokens[i] == Token(lex[i], LevelOn(lex, i))
  }

  method Tokenize(lex: seq<Lexeme>) returns (tokens: seq<Token>)
    ensures Levelled(tokens, lex)
  {
    tokens := [];
    var brace: nat, paren: nat, square: nat := 0, 0, 0;
    for i := 0 to |lex|
      invariant |tokens| == i
      invariant Level(square, paren, brace) == LevelAt(lex, i)
      invariant forall k {:trigger tokens[k]} :: 0 <= k < i ==> tokens[k] == Token(lex[k], LevelOn(lex, k))
    {
      if lex[i].Open? {
        match lex[i].b
        case Paren => paren := paren + 1;
        case Square => square := square + 1;
        case Brace => brace := brace + 1;
      } else if lex[i].Close? {
        if lex[i].b == Paren && paren > 0 { paren := paren - 1; }
        else if lex[i].b == Square && square > 0 { square := square - 1; }
        else if brace > 0 { brace := brace - 1; }
      }
      assert Level(square, paren, brace) == LevelOn(lex, i);
      tokens := tokens + [Token(lex[i], Level(square, paren, brace))];
    }
  }

  // Proper nesting, by stack.

  /** One token's effect on the open brackets; None once a close does not match. */
  function Push(st: seq<Bracket>, x: Lexeme): Option<seq<Bracket>> {
    match x
    case Open(b) => Some(st + [b])
    case Close(b) => if st != [] && st[|st| - 1] == b then Some(st[..|st| - 1]) else None
    case _ => Some(st)
  }

  /** The brackets open after k tokens. */
  function StackAt(lex: seq<Lexeme>, k: nat): Option<seq<Bracket>>
    requires k <= |lex|
  {
    if k == 0 then Some([])
    else match StackAt(lex, k - 1)
      case None => None
      case Some(st) => Push(st, lex[k - 1])
  }

  predicate Nested(lex: seq<Lexeme>) {
    StackAt(lex, |lex|) == Some([])
  }

  /** The close that belongs to the open at b: same bracket, properly nested in between. */
  predicate Matching(lex: seq<Lexeme>, b: nat, j: nat) {
    && b < j < |lex|
    && lex[b].Open? && lex[j] == Close(lex[b].b)
    && Nested(lex[b + 1..j])
  }

  lemma {:induction false} NestedPrefix(lex: seq<Lexeme>, k: nat, n: nat)
    requires k <= n <= |lex| && StackAt(lex, n).Some?
    ensures StackAt(lex, k).Some?
    decreases n
  {
    if k < n { NestedPrefix(lex, k, n - 1); }
  }

  function Height(lex: seq<Lexeme>, k: nat): nat
    requires k <= |lex| && StackAt(lex, k).Some?
  {
    |StackAt(lex, k).value|
  }

  function LevelOf(st: seq<Bracket>): Level {
    if st == [] then OUTSIDE else LevelAfter(LevelOf(st[..|st| - 1]), Open(st[|st| - 1]))
  }

  lemma {:induction false} LevelOfHeight(st: seq<Bracket>)
    ensures var l := LevelOf(st); l.square + l.paren + l.brace == |st|
    decreases |st|
  {
    if st != [] { LevelOfHeight(st[..|st| - 1]); }
  }

  /** On properly nested input the three counters count the open brackets of each kind. */
  lemma {:induction false} LevelsCountTheStack(lex: seq<Lexeme>, k: nat)
    requires k <= |lex| && StackAt(lex, k).Some?
    ensures LevelAt(lex, k) == LevelOf(StackAt(lex, k).value)
    decreases k
  {
    if k > 0 {
      NestedPrefix(lex, k - 1, k);
      LevelsCountTheStack(lex, k - 1);
      var st := StackAt(lex, k - 1).value;
      if lex[k - 1].Open? {
        assert (st + [lex[k - 1].b])[..|st|] == st;
      }
    }
  }

  lemma PushOnTop(base: seq<Bracket>, inner: seq<Bracket>, x: Lexeme)
    requires Push(base + inner, x).Some? && |Push(base + inner, x).value| >= |base|
    ensures Push(inner, x).Some? && Push(base + inner, x).value == base + Push(inner, x).value
  {
    match x
    case Open(b) => assert base + inner + [b] == base + (inner + [b]);
    case Close(b) => assert (base + inner)[..|base + inner| - 1] == base + inner[..|inner| - 1];
    case _ =>
  }

  /** While the stack stays above `base`, it is `base` with the stack of what follows (`seg`, from
      token b on) on top. */
  lemma {:induction false} InnerStack(lex: seq<Lexeme>, b: nat, seg: seq<Lexeme>, n: nat, base: seq<Bracket>)
    requires n <= |seg| <= |lex| - b && forall i :: 0 <= i < |seg| ==> seg[i] == lex[b + i]
    requires StackAt(lex, b) == Some(base)
    requires forall i :: b <= i <= b + n ==> StackAt(lex, i).Some? && Height(lex, i) >= |base|
    ensures StackAt(seg, n).Some? && StackAt(lex, b + n) == Some(base + StackAt(seg, n).value)
    decreases n
  {
    if n == 0 {
      assert base + [] == base;
    } else {
      InnerStack(lex, b, seg, n - 1, base);
      PushInside(lex, b + n, seg, n, base);
    }
  }

  /** One more token, with `base` below in the one stack and not in the other. */
  lemma PushInside(lex: seq<Lexeme>, k: nat, seg: seq<Lexeme>, n: nat, base: seq<Bracket>)
    requires 0 < k <= |lex| && 0 < n <= |seg| && lex[k - 1] == seg[n - 1]
    requires StackAt(seg, n - 1).Some? && StackAt(lex, k - 1) == Some(base + StackAt(seg, n - 1).value)
    requires StackAt(lex, k).Some? && |StackAt(lex, k).value| >= |base|
    ensures StackAt(seg, n).Some? && StackAt(lex, k) == Some(base + StackAt(seg, n).value)
  {
    PushOnTop(base, StackAt(seg, n - 1).value, seg[n - 1]);
  }

  /** The first token from k on after which the stack is no higher than before b. */
  function CloseOf(lex: seq<Lexeme>, b: nat, k: nat): (j: nat)
    requires Nested(lex) && b < |lex| && k < |lex|
    ensures k <= j < |lex|
    decreases |lex| - k
  {
    NestedPrefix(lex, b, |lex|);
    NestedPrefix(lex, k + 1, |lex|);
    if Height(lex, k + 1) <= Height(lex, b) then k else CloseOf(lex, b, k + 1)
  }

  /** The matching close, found by height. */
  function MatchingClose(lex: seq<Lexeme>, b: nat): (j: nat)
    requires Nested(lex) && b < |lex| && lex[b].Open?
    ensures b < j < |lex|
  {
    OpensHigher(lex, b);
    CloseOf(lex, b, b + 1)
  }

  lemma OpensHigher(lex: seq<Lexeme>, b: nat)
    requires Nested(lex) && b < |lex| && lex[b].Open?
    ensures b + 1 < |lex|
    ensures StackAt(lex, b).Some? && StackAt(lex, b + 1).Some? && Height(lex, b + 1) > Height(lex, b)
  {
    NestedPrefix(lex, b, |lex|);
    NestedPrefix(lex, b + 1, |lex|);
  }

  /** The stack at k is higher than before b. */
  predicate Above(lex: seq<Lexeme>, b: nat, k: nat) {
    b <= |lex| && k <= |lex| && StackAt(lex, b).Some? && StackAt(lex, k).Some? && Height(lex, k) > Height(lex, b)
  }

  lemma {:induction false} CloseOfIsFirst(lex: seq<Lexeme>, b: nat, k: nat)
    requires Nested(lex) && b < k < |lex| && Above(lex, b, k)
    ensures forall i :: k <= i <= CloseOf(lex, b, k) ==> Above(lex, b, i)
    ensures StackAt(lex, CloseOf(lex, b, k) + 1).Some? && !Above(lex, b, CloseOf(lex, b, k) + 1)
    decreases |lex| - k
  {
    NestedPrefix(lex, k + 1, |lex|);
    if CloseOf(lex, b, k) != k { CloseOfIsFirst(lex, b, k + 1); }
  }

  lemma MatchingCloseIsFirst(lex: seq<Lexeme>, b: nat)
    requires Nested(lex) && b < |lex| && lex[b].Open?
    ensures forall i :: b < i <= MatchingClose(lex, b) ==> Above(lex, b, i)
    ensures StackAt(lex, b).Some? && StackAt(lex, MatchingClose(lex, b) + 1).Some? && !Above(lex, b, MatchingClose(lex, b) + 1)
  {
    OpensHigher(lex, b);
    CloseOfIsFirst(lex, b, b + 1);
  }

  /** A token that takes the stack back down to `base` closes the one bracket above it. */
  lemma FallsBack(base: seq<Bracket>, x: Bracket, inner: seq<Bracket>, y: Lexeme)
    requires Push(base + [x] + inner, y).Some? && |Push(base + [x] + inner, y).value| <= |base|
    ensures inner == [] && y == Close(x) && Push(base + [x] + inner, y) == Some(base)
  {
    var st := base + [x] + inner;
    assert y.Close? && inner == [] && st[..|st| - 1] == base;
  }

  /** The first token after b at which the stack is no higher than before b closes b. */
  lemma FirstReturnCloses(lex: seq<Lexeme>, b: nat, j: nat)
    requires b < j < |lex| && lex[b].Open? && StackAt(lex, b).Some?
    requires forall i :: b < i <= j ==> Above(lex, b, i)
    requires StackAt(lex, j + 1).Some? && !Above(lex, b, j + 1)
    ensures Matching(lex, b, j) && StackAt(lex, j + 1) == StackAt(lex, b)
  {
    var outer, seg := StackAt(lex, b).value, lex[b + 1..j];
    var base := outer + [lex[b].b];
    assert StackAt(lex, b + 1) == Some(base);
    forall i | b + 1 <= i <= b + 1 + |seg| ensures StackAt(lex, i).Some? && Height(lex, i) >= |base| {
      assert Above(lex, b, i);
    }
    InnerStack(lex, b + 1, seg, |seg|, base);
    var inner := StackAt(seg, |seg|).value;
    assert StackAt(lex, j) == Some(base + inner);
    assert StackAt(lex, j + 1) == Push(base + inner, lex[j]);
    FallsBack(outer, lex[b].b, inner, lex[j]);
    assert Nested(seg);
  }

  /** What MatchingClose finds is the matching close. */
  lemma MatchingCloseMatches(lex: seq<Lexeme>, b: nat)
    requires Nested(lex) && b < |lex| && lex[b].Open?
    ensures Matching(lex, b, MatchingClose(lex, b))
    ensures StackAt(lex, b).Some? && StackAt(lex, MatchingClose(lex, b) + 1) == StackAt(lex, b)
  {
    MatchingCloseIsFirst(lex, b);
    FirstReturnCloses(lex, b, MatchingClose(lex, b));
  }

  /** After two prefixes of different height the levels differ. */
  lemma HeightShowsInLevel(lex: seq<Lexeme>, a: nat, b: nat)
    requires a <= |lex| && b <= |lex| && StackAt(lex, a).Some? && StackAt(lex, b).Some?
    requires Height(lex, a) != Height(lex, b)
    ensures LevelAt(lex, a) != LevelAt(lex, b)
  {
    LevelsCountTheStack(lex, a);
    LevelsCountTheStack(lex, b);
    LevelOfHeight(StackAt(lex, a).value);
    LevelOfHeight(StackAt(lex, b).value);
  }

  lemma SameStackSameLevel(lex: seq<Lexeme>, a: nat, b: nat)
    requires a <= |lex| && b <= |lex| && StackAt(lex, a).Some? && StackAt(lex, a) == StackAt(lex, b)
    ensures LevelAt(lex, a) == LevelAt(lex, b)
  {
    LevelsCountTheStack(lex, a);
    LevelsCountTheStack(lex, b);
  }

  /** From an open bracket up to its close, the level is back to what it was before it exactly
      at the close. */
  lemma LevelReturnsAtClose(lex: seq<Lexeme>, b: nat, i: nat)
    requires Nested(lex) && b < |lex| && lex[b].Open? && b < i <= MatchingClose(lex, b)
    ensures LevelAt(lex, i + 1) == LevelAt(lex, b) <==> i == MatchingClose(lex, b)
    ensures i == MatchingClose(lex, b) ==> lex[i].Close?
  {
    MatchingCloseMatches(lex, b);
    if i == MatchingClose(lex, b) {
      SameStackSameLevel(lex, i + 1, b);
    } else {
      MatchingCloseIsFirst(lex, b);
      assert Above(lex, b, i + 1);
      HeightShowsInLevel(lex, i + 1, b);
    }
  }

  // Search.

  /** What the search is for: names the pattern accepts, followed by this bracket. */
  datatype Pattern = Pattern(accepts: string -> bool, delim: Bracket)

  predicate Hit(p: Pattern, x: Lexeme) {
    x.Name? && p.accepts(x.text)
  }

  /** The spans found from token i on, while no name is pending. */
  function Spans(p: Pattern, lex: seq<Lexeme>, i: nat): seq<Span>
    requires Nested(lex) && i <= |lex|
    decreases |lex| - i, 1
  {
    if i == |lex| then []
    else if Hit(p, lex[i]) then SpansAfterName(p, lex, i, i + 1)
    else Spans(p, lex, i + 1)
  }

  /** The spans found from token i on, after an accepted name at s with only spaces since. A
      delimited name's span ends at the matching close. A bare name's ends before the token
      that disqualified it, which is then passed over; one at the very end of the list is
      reported up to the end, unless it is the first token. */
  function SpansAfterName(p: Pattern, lex: seq<Lexeme>, s: nat, i: nat): seq<Span>
    requires Nested(lex) && s < i <= |lex|
    decreases |lex| - i, 0
  {
    if i == |lex| then (if s > 0 then [Span(s, |lex|)] else [])
    else if lex[i] == Space then SpansAfterName(p, lex, s, i + 1)
    else if lex[i] == Open(p.delim) then [Span(s, MatchingClose(lex, i))] + Spans(p, lex, MatchingClose(lex, i) + 1)
    else [Span(s, i - 1)] + Spans(p, lex, i + 1)
  }

  /** A close bracket never returns to the level before it. */
  lemma CloseLeavesLevel(lex: seq<Lexeme>, i: nat)
    requires Nested(lex) && i < |lex| && lex[i].Close?
    ensures LevelOn(lex, i) != LevelAt(lex, i)
  {
    NestedPrefix(lex, i, |lex|);
    NestedPrefix(lex, i + 1, |lex|);
    assert LevelOn(lex, i) == LevelAt(lex, i + 1);
    HeightShowsInLevel(lex, i + 1, i);
  }

  predicate SpacesBetween(lex: seq<Lexeme>, s: nat, k: nat)
    requires k <= |lex|
  {
    forall i :: s < i < k ==> lex[i] == Space
  }

  /** A name and the spaces after it leave the level where it was. */
  lemma {:induction false} SpacesKeepLevel(lex: seq<Lexeme>, s: nat, k: nat)
    requires s < k <= |lex| && lex[s].Name? && SpacesBetween(lex, s, k)
    ensures LevelAt(lex, k) == LevelOn(lex, s)
    decreases k
  {
    if k > s + 1 {
      assert SpacesBetween(lex, s, k - 1) && lex[k - 1] == Space;
      SpacesKeepLevel(lex, s, k - 1);
    }
  }

  /** The program's test for the end of a span, at token i. */
  predicate EndsAt(lex: seq<Lexeme>, s: nat, i: nat)
    requires s < |lex| && i < |lex|
  {
    lex[i].Close? && LevelOn(lex, i) == LevelOn(lex, s)
  }

  /** It succeeds at the matching close and nowhere before. */
  lemma EndsExactlyAtClose(lex: seq<Lexeme>, s: nat, open: nat, i: nat)
    requires Nested(lex) && s < open < i < |lex| && lex[s].Name? && SpacesBetween(lex, s, open)
    requires lex[open].Open? && i <= MatchingClose(lex, open)
    ensures EndsAt(lex, s, i) <==> i == MatchingClose(lex, open)
  {
    SpacesKeepLevel(lex, s, open);
    LevelReturnsAtClose(lex, open, i);
  }

  /** It fails on the token that shows a name to be bare. */
  lemma NeverEndsAtBareName(lex: seq<Lexeme>, s: nat, i: nat)
    requires Nested(lex) && s < i < |lex| && lex[s].Name? && SpacesBetween(lex, s, i)
    ensures !EndsAt(lex, s, i)
  {
    SpacesKeepLevel(lex, s, i);
    if lex[i].Close? { CloseLeavesLevel(lex, i); }
  }

  /** What the search still has to find, given where it stands before token i. */
  ghost function Remaining(p: Pattern, lex: seq<Lexeme>, start: Option<nat>, started: bool, open: nat, i: nat): seq<Span>
    requires Nested(lex) && i <= |lex|
    requires start.Some? ==> start.value < i && (started ==> start.value < open < i && lex[open].Open?)
  {
    match start
    case None => Spans(p, lex, i)
    case Some(s) =>
      if !started then SpansAfterName(p, lex, s, i)
      else [Span(s, MatchingClose(lex, open))] + Spans(p, lex, MatchingClose(lex, open) + 1)
  }

  /** The search's variables, and (not one of them) where the pending name's delimiter opened. */
  datatype Scan = Scan(spans: seq<Span>, start: Option<nat>, started: bool, stack: seq<(nat, Level)>, open: nat)

  /** A close bracket on the level on top of the stack ends a span. */
  function Closing(c: Scan, tok: Token, last: nat): Scan
    requires c.stack != []
  {
    var (from, level) := c.stack[|c.stack| - 1];
    if tok.lex.Close? && tok.level == level
    then c.(spans := c.spans + [Span(from, last)], start := None, stack := c.stack[..|c.stack| - 1])
    else c
  }

  /** One turn of the search's loop. */
  function Turn(p: Pattern, c: Scan, tok: Token, i: nat): Scan
    requires c.start.Some? ==> c.stack != [] && c.start.value < i
  {
    match c.start
    case None =>
      if Hit(p, tok.lex) then c.(start := Some(i), started := false, stack := c.stack + [(i, tok.level)]) else c
    case Some(s) =>
      if c.started then Closing(c, tok, i)
      else if tok.lex == Space then c
      else if tok.lex == Open(p.delim) then c.(started := true, open := i)
      else Closing(c.(spans := c.spans + [Span(s, i - 1)], start := None), tok, i - 1)
  }

  const NOTHING_SCANNED := Scan([], None, false, [], 0)

  function Scanned(p: Pattern, tokens: seq<Token>, i: nat): (c: Scan)
    requires i <= |tokens|
    ensures c.start.Some? ==> c.stack != [] && c.start.value < i
  {
    if i == 0 then NOTHING_SCANNED else Turn(p, Scanned(p, tokens, i - 1), tokens[i - 1], i - 1)
  }

  /** What is yielded in all: a name still pending at the end is, unless it is the first token. */
  function Yielded(c: Scan, n: nat): seq<Span> {
    if c.start.Some? && c.start.value > 0 then c.spans + [Span(c.start.value, n)] else c.spans
  }

  /** Before token i of a properly nested list: a pending name is on top of the stack with its
      level, and the spans found and the spans remaining make up all. */
  ghost predicate Good(p: Pattern, lex: seq<Lexeme>, c: Scan, i: nat)
    requires Nested(lex)
  {
    && i <= |lex|
    && Pending(p, lex, c, i)
    && (c.start.Some? && c.started ==> i <= MatchingClose(lex, c.open))
    && c.spans + Remaining(p, lex, c.start, c.started, c.open, i) == Spans(p, lex, 0)
  }

  ghost predicate Pending(p: Pattern, lex: seq<Lexeme>, c: Scan, i: nat) {
    c.start.Some? ==>
      var s := c.start.value;
      && s < i <= |lex| && lex[s].Name?
      && c.stack != [] && c.stack[|c.stack| - 1] == (s, LevelOn(lex, s))
      && (!c.started ==> SpacesBetween(lex, s, i))
      && (c.started ==> s < c.open < i && lex[c.open] == Open(p.delim) && SpacesBetween(lex, s, c.open))
  }

  lemma GoodIdle(p: Pattern, lex: seq<Lexeme>, c: Scan, i: nat)
    requires Nested(lex) && Good(p, lex, c, i) && i < |lex| && c.start.None?
    ensures Good(p, lex, Turn(p, c, Token(lex[i], LevelOn(lex, i)), i), i + 1)
  {}

  lemma GoodPending(p: Pattern, lex: seq<Lexeme>, c: Scan, i: nat)
    requires Nested(lex) && Good(p, lex, c, i) && i < |lex| && c.start.Some? && !c.started
    requires lex[i] == Space || lex[i] == Open(p.delim)
    ensures Good(p, lex, Turn(p, c, Token(lex[i], LevelOn(lex, i)), i), i + 1)
  {}

  lemma Regroup<T>(a: seq<T>, b: seq<T>, c: seq<T>)
    ensures a + b + c == a + (b + c)
  {}

  lemma GoodBare(p: Pattern, lex: seq<Lexeme>, c: Scan, i: nat)
    requires Nested(lex) && Good(p, lex, c, i) && i < |lex| && c.start.Some? && !c.started
    requires lex[i] != Space && lex[i] != Open(p.delim)
    ensures Good(p, lex, Turn(p, c, Token(lex[i], LevelOn(lex, i)), i), i + 1)
  {
    var s := c.start.value;
    NeverEndsAtBareName(lex, s, i);
    assert Turn(p, c, Token(lex[i], LevelOn(lex, i)), i) == c.(spans := c.spans + [Span(s, i - 1)], start := None);
    Regroup(c.spans, [Span(s, i - 1)], Spans(p, lex, i + 1));
  }

  lemma GoodInside(p: Pattern, lex: seq<Lexeme>, c: Scan, i: nat)
    requires Nested(lex) && Good(p, lex, c, i) && i < |lex| && c.start.Some? && c.started
    ensures Good(p, lex, Turn(p, c, Token(lex[i], LevelOn(lex, i)), i), i + 1)
  {
    var s := c.start.value;
    EndsExactlyAtClose(lex, s, c.open, i);
    Regroup(c.spans, [Span(s, i)], Spans(p, lex, i + 1));
  }

  lemma GoodTurn(p: Pattern, lex: seq<Lexeme>, c: Scan, i: nat)
    requires Nested(lex) && Good(p, lex, c, i) && i < |lex|
    ensures Good(p, lex, Turn(p, c, Token(lex[i], LevelOn(lex, i)), i), i + 1)
  {
    if c.start.None? {
      GoodIdle(p, lex, c, i);
    } else if c.started {
      GoodInside(p, lex, c, i);
    } else if lex[i] == Space || lex[i] == Open(p.delim) {
      GoodPending(p, lex, c, i);
    } else {
      GoodBare(p, lex, c, i);
    }
  }

  lemma GoodAtStart(p: Pattern, lex: seq<Lexeme>)
    requires Nested(lex)
    ensures Good(p, lex, NOTHING_SCANNED, 0)
  {
    NothingFirst(Spans(p, lex, 0));
  }

  lemma NothingFirst<T>(s: seq<T>)
    ensures [] + s == s
  {}

  lemma GoodNext(p: Pattern, tokens: seq<Token>, lex: seq<Lexeme>, i: nat)
    requires Nested(lex) && i < |tokens| == |lex| && tokens[i] == Token(lex[i], LevelOn(lex, i))
    requires Good(p, lex, Scanned(p, tokens, i), i)
    ensures Good(p, lex, Scanned(p, tokens, i + 1), i + 1)
  {
    var c := Scanned(p, tokens, i);
    GoodTurn(p, lex, c, i);
    assert Scanned(p, tokens, i + 1) == Turn(p, c, tokens[i], i);
  }

  lemma {:induction false} GoodThroughout(p: Pattern, tokens: seq<Token>, lex: seq<Lexeme>, i: nat)
    requires Nested(lex) && Levelled(tokens, lex) && i <= |lex|
    ensures Good(p, lex, Scanned(p, tokens, i), i)
  {
    if i == 0 {
      GoodAtStart(p, lex);
    } else {
      GoodThroughout(p, tokens, lex, i - 1);
      GoodNext(p, tokens, lex, i - 1);
    }
  }

  /** On properly nested input the search yields exactly the spans above, although its level
      test is all it knows of nesting and its stack is never popped for a bare name. */
  lemma SearchYieldsSpans(p: Pattern, tokens: seq<Token>, lex: seq<Lexeme>)
    requires Nested(lex) && Levelled(tokens, lex)
    ensures Yielded(Scanned(p, tokens, |tokens|), |tokens|) == Spans(p, lex, 0)
  {
    GoodThroughout(p, tokens, lex, |lex|);
  }

  /** _search(). */
  method Search(p: Pattern, tokens: seq<Token>) returns (spans: seq<Span>)
    ensures spans == Yielded(Scanned(p, tokens, |tokens|), |tokens|)
    ensures forall lex :: Levelled(tokens, lex) && Nested(lex) ==> spans == Spans(p, lex, 0)
  {
    spans := [];
    var start: Option<nat> := None;
    var started := false;
    var stack: seq<(nat, Level)> := [];
    for i := 0 to |tokens|
      invariant var c := Scanned(p, tokens, i);
                spans == c.spans && start == c.start && started == c.started && stack == c.stack
    {
      var tok := tokens[i];
      if start.None? {
        if Hit(p, tok.lex) {
          start := Some(i);
          stack := stack + [(i, tok.level)];
          started := false;
        }
        continue;
      }
      var last := i;
      if !started {
        if tok.lex == Space { continue; }
        if tok.lex == Open(p.delim) {
          started := true;
          continue;
        }
        if i > start.value { last := i - 1; }
        spans := spans + [Span(start.value, last)];
        start := None;
      }
      if tok.lex.Close? && tok.level == stack[|stack| - 1].1 {
        var (from, _) := stack[|stack| - 1];
        stack := stack[..|stack| - 1];
        spans := spans + [Span(from, last)];
        start := None;
      }
    }
    if start.Some? && start.value > 0 && stack != [] {
      spans := spans + [Span(start.value, |tokens|)];
    }
    forall lex | Levelled(tokens, lex) && Nested(lex) ensures spans == Spans(p, lex, 0) {
      SearchYieldsSpans(p, tokens, lex);
    }
  }

  // What the spans are.

  /** The first token after s that is not a space. */
  predicate FollowedBy(lex: seq<Lexeme>, s: nat, b: nat)
    requires s < |lex|
  {
    s < b < |lex| && SpacesBetween(lex, s, b) && lex[b] != Space
  }

  /** An accepted name whose span ends at the matching close of the delimiter that follows
      it, before whatever else follows it, or at the end of the list if nothing does. */
  ghost predicate RightSpan(p: Pattern, lex: seq<Lexeme>, sp: Span) {
    && sp.start <= sp.end <= |lex| && sp.start < |lex|
    && Hit(p, lex[sp.start])
    && (forall b: nat :: FollowedBy(lex, sp.start, b) ==>
          if lex[b] == Open(p.delim) then Matching(lex, b, sp.end) else sp.end == b - 1)
    && (SpacesBetween(lex, sp.start, |lex|) ==> sp.end == |lex|)
  }

  /** Spans from `from` on, none overlapping, in order. */
  ghost predicate Apart(spans: seq<Span>, from: nat) {
    && (forall k :: 0 <= k < |spans| ==> from <= spans[k].start <= spans[k].end)
    && (forall k, l :: 0 <= k < l < |spans| ==> spans[k].end < spans[l].start)
  }

  ghost predicate AllRight(p: Pattern, lex: seq<Lexeme>, spans: seq<Span>) {
    forall k :: 0 <= k < |spans| ==> RightSpan(p, lex, spans[k])
  }

  lemma ApartCons(sp: Span, rest: seq<Span>, from: nat, next: nat)
    requires from <= sp.start <= sp.end < next && Apart(rest, next)
    ensures Apart([sp] + rest, from)
  {
    var all := [sp] + rest;
    assert forall k :: 1 <= k < |all| ==> all[k] == rest[k - 1];
  }

  lemma OneFollower(lex: seq<Lexeme>, s: nat, b: nat, c: nat)
    requires s < |lex| && FollowedBy(lex, s, b) && FollowedBy(lex, s, c)
    ensures b == c
  {}

  /** The token that follows the name at sp.start, if any, and what it makes of the span. */
  ghost predicate FromName(p: Pattern, lex: seq<Lexeme>, sp: Span)
    requires Nested(lex)
  {
    && sp.start < |lex| && Hit(p, lex[sp.start])
    && ( (SpacesBetween(lex, sp.start, |lex|) && sp.end == |lex|)
      || (exists b: nat :: FollowedBy(lex, sp.start, b) && sp.end == SpanEnd(p, lex, b)))
  }

  function SpanEnd(p: Pattern, lex: seq<Lexeme>, b: nat): nat
    requires Nested(lex) && 0 < b < |lex|
  {
    if lex[b] == Open(p.delim) then MatchingClose(lex, b) else b - 1
  }

  lemma FromNameIsRight(p: Pattern, lex: seq<Lexeme>, sp: Span)
    requires Nested(lex) && FromName(p, lex, sp)
    ensures RightSpan(p, lex, sp)
  {
    if b: nat :| FollowedBy(lex, sp.start, b) && sp.end == SpanEnd(p, lex, b) {
      forall c: nat | FollowedBy(lex, sp.start, c) ensures b == c { OneFollower(lex, sp.start, b, c); }
      if lex[b] == Open(p.delim) { MatchingCloseMatches(lex, b); }
    }
  }

  ghost predicate AllFromNames(p: Pattern, lex: seq<Lexeme>, spans: seq<Span>)
    requires Nested(lex)
  {
    forall k :: 0 <= k < |spans| ==> FromName(p, lex, spans[k])
  }

  lemma FromNamesCons(p: Pattern, lex: seq<Lexeme>, s: nat, b: nat, rest: seq<Span>)
    requires Nested(lex) && s < |lex| && Hit(p, lex[s]) && FollowedBy(lex, s, b) && AllFromNames(p, lex, rest)
    ensures AllFromNames(p, lex, [Span(s, SpanEnd(p, lex, b))] + rest)
  {
    assert FromName(p, lex, Span(s, SpanEnd(p, lex, b)));
  }

  lemma {:induction false} SpansFromNames(p: Pattern, lex: seq<Lexeme>, i: nat)
    requires Nested(lex) && i <= |lex|
    ensures AllFromNames(p, lex, Spans(p, lex, i))
    decreases |lex| - i, 1
  {
    if i < |lex| {
      if Hit(p, lex[i]) { SpansAfterNameFromNames(p, lex, i, i + 1); } else { SpansFromNames(p, lex, i + 1); }
    }
  }

  lemma {:induction false} SpansAfterNameFromNames(p: Pattern, lex: seq<Lexeme>, s: nat, i: nat)
    requires Nested(lex) && s < i <= |lex| && Hit(p, lex[s]) && SpacesBetween(lex, s, i)
    ensures AllFromNames(p, lex, SpansAfterName(p, lex, s, i))
    decreases |lex| - i, 0
  {
    if i == |lex| {
    } else if lex[i] == Space {
      SpansAfterNameFromNames(p, lex, s, i + 1);
    } else {
      var next := if lex[i] == Open(p.delim) then MatchingClose(lex, i) + 1 else i + 1;
      SpansFromNames(p, lex, next);
      FromNamesCons(p, lex, s, i, Spans(p, lex, next));
    }
  }

  lemma {:induction false} SpansIncrease(p: Pattern, lex: seq<Lexeme>, i: nat)
    requires Nested(lex) && i <= |lex|
    ensures Apart(Spans(p, lex, i), i)
    decreases |lex| - i, 1
  {
    if i < |lex| {
      if Hit(p, lex[i]) { SpansAfterNameIncrease(p, lex, i, i + 1); } else { SpansIncrease(p, lex, i + 1); }
    }
  }

  lemma {:induction false} SpansAfterNameIncrease(p: Pattern, lex: seq<Lexeme>, s: nat, i: nat)
    requires Nested(lex) && s < i <= |lex|
    ensures Apart(SpansAfterName(p, lex, s, i), s)
    decreases |lex| - i, 0
  {
    if i == |lex| {
    } else if lex[i] == Space {
      SpansAfterNameIncrease(p, lex, s, i + 1);
    } else {
      var end := SpanEnd(p, lex, i);
      var next := if lex[i] == Open(p.delim) then end + 1 else i + 1;
      assert s <= end < next;
      assert SpansAfterName(p, lex, s, i) == [Span(s, end)] + Spans(p, lex, next);
      SpansIncrease(p, lex, next);
      ApartCons(Span(s, end), Spans(p, lex, next), s, next);
    }
  }

  lemma AllFromNamesRight(p: Pattern, lex: seq<Lexeme>, spans: seq<Span>)
    requires Nested(lex) && AllFromNames(p, lex, spans)
    ensures AllRight(p, lex, spans)
  {
    forall k | 0 <= k < |spans| ensures RightSpan(p, lex, spans[k]) { FromNameIsRight(p, lex, spans[k]); }
  }

  /** On properly nested input every span found starts at an accepted name and, when the
      delimiter follows, ends at its matching close; spans are disjoint and in order. */
  lemma SearchFindsMatchingSpans(p: Pattern, lex: seq<Lexeme>)
    requires Nested(lex)
    ensures AllRight(p, lex, Spans(p, lex, 0)) && Apart(Spans(p, lex, 0), 0)
  {
    var spans := Spans(p, lex, 0);
    SpansFromNames(p, lex, 0);
    AllFromNamesRight(p, lex, spans);
    SpansIncrease(p, lex, 0);
  }

  /** An accepted name at h is reported, lies inside a reported span, or is the very token
      that showed another name to be bare. */
  ghost predicate AccountedFor(p: Pattern, lex: seq<Lexeme>, spans: seq<Span>, h: nat) {
    exists k :: 0 <= k < |spans| && Accounts(lex, spans[k], h)
  }

  ghost predicate Accounts(lex: seq<Lexeme>, sp: Span, h: nat) {
    || sp.start <= h <= sp.end
    || (h == sp.end + 1 && sp.start < |lex| && sp.end < |lex| && SpacesBetween(lex, sp.start, sp.end + 1))
  }

  lemma AccountedCons(p: Pattern, lex: seq<Lexeme>, sp: Span, rest: seq<Span>, h: nat)
    requires Accounts(lex, sp, h) || AccountedFor(p, lex, rest, h)
    ensures AccountedFor(p, lex, [sp] + rest, h)
  {
    var all := [sp] + rest;
    if Accounts(lex, sp, h) {
      assert Accounts(lex, all[0], h);
    } else {
      var k :| 0 <= k < |rest| && Accounts(lex, rest[k], h);
      assert Accounts(lex, all[k + 1], h);
    }
  }

  /** A name is missed only where the program's own shortcuts miss it: right after a bare
      name, or as the first token of the list with nothing but spaces behind it. */
  lemma {:induction false} NamesAreAccountedFor(p: Pattern, lex: seq<Lexeme>, i: nat, h: nat)
    requires Nested(lex) && i <= h < |lex| && Hit(p, lex[h])
    ensures AccountedFor(p, lex, Spans(p, lex, i), h) || (h == 0 && SpacesBetween(lex, 0, |lex|))
    decreases |lex| - i, 1
  {
    if Hit(p, lex[i]) {
      NamesAfterNameAccounted(p, lex, i, i + 1, h);
    } else {
      NamesAreAccountedFor(p, lex, i + 1, h);
    }
  }

  lemma {:induction false} NamesAfterNameAccounted(p: Pattern, lex: seq<Lexeme>, s: nat, i: nat, h: nat)
    requires Nested(lex) && s < i <= |lex| && Hit(p, lex[s]) && SpacesBetween(lex, s, i)
    requires s <= h < |lex| && Hit(p, lex[h])
    ensures AccountedFor(p, lex, SpansAfterName(p, lex, s, i), h) || (h == 0 && SpacesBetween(lex, 0, |lex|))
    decreases |lex| - i, 0
  {
    assert h == s || h >= i;
    if i == |lex| {
      if s > 0 { AccountedCons(p, lex, Span(s, |lex|), [], h); }
    } else if lex[i] == Space {
      NamesAfterNameAccounted(p, lex, s, i + 1, h);
    } else if lex[i] == Open(p.delim) {
      var j := MatchingClose(lex, i);
      if h > j { NamesAreAccountedFor(p, lex, j + 1, h); }
      AccountedCons(p, lex, Span(s, j), Spans(p, lex, j + 1), h);
    } else {
      if h > i { NamesAreAccountedFor(p, lex, i + 1, h); }
      AccountedCons(p, lex, Span(s, i - 1), Spans(p, lex, i + 1), h);
    }
  }

  /** A span of a bare name and the spaces after it, with a token behind it. */
  ghost predicate Bare(lex: seq<Lexeme>, sp: Span) {
    sp.start <= sp.end < |lex| && SpacesBetween(lex, sp.start, sp.end + 1)
  }

  /** No span starts on the token behind a bare name. */
  ghost predicate SkipsAfterBare(lex: seq<Lexeme>, spans: seq<Span>) {
    forall k, l :: 0 <= k < l < |spans| && Bare(lex, spans[k]) ==> spans[l].start > spans[k].end + 1
  }

  lemma SkipsCons(lex: seq<Lexeme>, sp: Span, rest: seq<Span>, next: nat)
    requires Apart(rest, next) && SkipsAfterBare(lex, rest) && (Bare(lex, sp) ==> next > sp.end + 1)
    ensures SkipsAfterBare(lex, [sp] + rest)
  {
    var all := [sp] + rest;
    assert forall k :: 1 <= k < |all| ==> all[k] == rest[k - 1];
  }

  lemma {:induction false} SpansSkip(p: Pattern, lex: seq<Lexeme>, i: nat)
    requires Nested(lex) && i <= |lex|
    ensures SkipsAfterBare(lex, Spans(p, lex, i))
    decreases |lex| - i, 1
  {
    if i < |lex| {
      if Hit(p, lex[i]) { SpansAfterNameSkip(p, lex, i, i + 1); } else { SpansSkip(p, lex, i + 1); }
    }
  }

  lemma {:induction false} SpansAfterNameSkip(p: Pattern, lex: seq<Lexeme>, s: nat, i: nat)
    requires Nested(lex) && s < i <= |lex|
    ensures SkipsAfterBare(lex, SpansAfterName(p, lex, s, i))
    decreases |lex| - i, 0
  {
    if i == |lex| {
    } else if lex[i] == Space {
      SpansAfterNameSkip(p, lex, s, i + 1);
    } else if lex[i] == Open(p.delim) {
      var j := MatchingClose(lex, i);
      assert lex[i] != Space;
      SpansIncrease(p, lex, j + 1);
      SpansSkip(p, lex, j + 1);
      SkipsCons(lex, Span(s, j), Spans(p, lex, j + 1), j + 1);
    } else {
      SpansIncrease(p, lex, i + 1);
      SpansSkip(p, lex, i + 1);
      SkipsCons(lex, Span(s, i - 1), Spans(p, lex, i + 1), i + 1);
    }
  }

  /** A first name with nothing but spaces behind it is not reported. */
  lemma {:induction false} LoneNameHasNoSpan(p: Pattern, lex: seq<Lexeme>, i: nat)
    requires Nested(lex) && 0 < i <= |lex| && SpacesBetween(lex, 0, |lex|)
    ensures SpansAfterName(p, lex, 0, i) == []
    decreases |lex| - i
  {
    if i < |lex| { LoneNameHasNoSpan(p, lex, i + 1); }
  }

  ghost predicate Reported(spans: seq<Span>, h: nat) {
    exists k :: 0 <= k < |spans| && spans[k].start == h
  }

  /** The name lies inside the span of an earlier one. */
  ghost predicate InEarlierSpan(spans: seq<Span>, h: nat) {
    exists k :: 0 <= k < |spans| && spans[k].start < h <= spans[k].end
  }

  ghost predicate BehindBareName(lex: seq<Lexeme>, spans: seq<Span>, h: nat) {
    exists k :: 0 <= k < |spans| && Bare(lex, spans[k]) && h == spans[k].end + 1
  }

  lemma ReportedStandsAlone(lex: seq<Lexeme>, spans: seq<Span>, h: nat)
    requires Apart(spans, 0) && SkipsAfterBare(lex, spans) && Reported(spans, h)
    ensures !InEarlierSpan(spans, h) && !BehindBareName(lex, spans, h)
  {
    var k :| 0 <= k < |spans| && spans[k].start == h;
    forall l | 0 <= l < |spans| && l != k
      ensures !(spans[l].start < h <= spans[l].end) && !(Bare(lex, spans[l]) && h == spans[l].end + 1)
    {
      if l < k { assert spans[l].end < spans[k].start; } else { assert spans[k].end < spans[l].start; }
    }
  }

  lemma AccountedHow(p: Pattern, lex: seq<Lexeme>, spans: seq<Span>, h: nat)
    requires Apart(spans, 0) && AccountedFor(p, lex, spans, h)
    ensures Reported(spans, h) || InEarlierSpan(spans, h) || BehindBareName(lex, spans, h)
  {
    var k :| 0 <= k < |spans| && Accounts(lex, spans[k], h);
    assert spans[k].start <= spans[k].end;
  }

  /** An accepted name is reported if and only if it is not inside an earlier span, not right
      behind a bare name, and not the first token with nothing but spaces behind it. */
  lemma NameReportedExactly(p: Pattern, lex: seq<Lexeme>, h: nat)
    requires Nested(lex) && h < |lex| && Hit(p, lex[h])
    ensures var spans := Spans(p, lex, 0);
            Reported(spans, h) <==>
            !InEarlierSpan(spans, h) && !BehindBareName(lex, spans, h) && !(h == 0 && SpacesBetween(lex, 0, |lex|))
  {
    var spans := Spans(p, lex, 0);
    NamesAreAccountedFor(p, lex, 0, h);
    SpansIncrease(p, lex, 0);
    SpansSkip(p, lex, 0);
    if h == 0 && SpacesBetween(lex, 0, |lex|) { LoneNameHasNoSpan(p, lex, 1); }
    if AccountedFor(p, lex, spans, h) { AccountedHow(p, lex, spans, h); }
    if Reported(spans, h) { ReportedStandsAlone(lex, spans, h); }
  }

  // The same from the input alone, when no two accepted names are next to each other.

  ghost predicate NoDoubles(p: Pattern, lex: seq<Lexeme>) {
    forall s: nat, b: nat :: s < |lex| && FollowedBy(lex, s, b) && Hit(p, lex[s]) ==> !Hit(p, lex[b])
  }

  /** h lies between the brackets that follow the accepted name s, the first of them at b. */
  ghost predicate EnclosedBy(p: Pattern, lex: seq<Lexeme>, s: nat, b: nat, h: nat)
    requires Nested(lex)
  {
    && s < |lex| && Hit(p, lex[s]) && FollowedBy(lex, s, b)
    && lex[b] == Open(p.delim) && b < h <= MatchingClose(lex, b)
  }

  ghost predicate Enclosed(p: Pattern, lex: seq<Lexeme>, h: nat)
    requires Nested(lex)
  {
    exists s: nat, b: nat :: EnclosedBy(p, lex, s, b, h)
  }

  /** Of two brackets, the one opened inside the other is closed inside it. */
  lemma InnerClosesFirst(lex: seq<Lexeme>, outer: nat, inner: nat)
    requires Nested(lex) && outer < inner < |lex| && lex[outer].Open? && lex[inner].Open?
    requires inner < MatchingClose(lex, outer)
    ensures MatchingClose(lex, inner) < MatchingClose(lex, outer)
  {
    var c1, c := MatchingClose(lex, outer), MatchingClose(lex, inner);
    MatchingCloseIsFirst(lex, outer);
    MatchingCloseIsFirst(lex, inner);
    MatchingCloseMatches(lex, inner);
    assert Above(lex, outer, inner) && !Above(lex, outer, c1 + 1);
    assert c1 < c ==> Above(lex, inner, c1 + 1);
  }

  lemma EnclosureIsTransitive(p: Pattern, lex: seq<Lexeme>, s1: nat, b1: nat, s: nat, b: nat, h: nat)
    requires Nested(lex) && EnclosedBy(p, lex, s1, b1, s) && EnclosedBy(p, lex, s, b, h)
    ensures EnclosedBy(p, lex, s1, b1, h) && s1 < s
  {
    MatchingCloseMatches(lex, b1);
    assert lex[MatchingClose(lex, b1)].Close?;
    assert b < MatchingClose(lex, b1);
    InnerClosesFirst(lex, b1, b);
  }

  lemma {:induction false} OutermostName(p: Pattern, lex: seq<Lexeme>, s: nat, b: nat, h: nat) returns (s0: nat, b0: nat)
    requires Nested(lex) && EnclosedBy(p, lex, s, b, h)
    ensures EnclosedBy(p, lex, s0, b0, h) && !Enclosed(p, lex, s0)
    decreases s
  {
    s0, b0 := s, b;
    if Enclosed(p, lex, s) {
      var s1: nat, b1: nat :| EnclosedBy(p, lex, s1, b1, s);
      EnclosureIsTransitive(p, lex, s1, b1, s, b, h);
      s0, b0 := OutermostName(p, lex, s1, b1, h);
    }
  }

  lemma InSpanIsEnclosed(p: Pattern, lex: seq<Lexeme>, sp: Span, h: nat)
    requires Nested(lex) && FromName(p, lex, sp) && h < |lex| && lex[h].Name? && sp.start < h <= sp.end
    ensures Enclosed(p, lex, h)
  {
    assert !SpacesBetween(lex, sp.start, |lex|);
    var b: nat :| FollowedBy(lex, sp.start, b) && sp.end == SpanEnd(p, lex, b);
    assert h >= b;
    assert EnclosedBy(p, lex, sp.start, b, h);
  }

  /** An accepted name that no other encloses is reported, unless it is the lone first token. */
  lemma OpenNameReported(p: Pattern, lex: seq<Lexeme>, h: nat)
    requires Nested(lex) && NoDoubles(p, lex) && h < |lex| && Hit(p, lex[h])
    requires !Enclosed(p, lex, h) && !(h == 0 && SpacesBetween(lex, 0, |lex|))
    ensures Reported(Spans(p, lex, 0), h)
  {
    var spans := Spans(p, lex, 0);
    SpansFromNames(p, lex, 0);
    NameReportedExactly(p, lex, h);
    if InEarlierSpan(spans, h) {
      var k :| 0 <= k < |spans| && spans[k].start < h <= spans[k].end;
      InSpanIsEnclosed(p, lex, spans[k], h);
    }
    if BehindBareName(lex, spans, h) {
      var k :| 0 <= k < |spans| && Bare(lex, spans[k]) && h == spans[k].end + 1;
      assert FollowedBy(lex, spans[k].start, h);
    }
  }

  /** Where no accepted name is followed, spaces aside, by another: an accepted name is reported if
      and only if it is not between the brackets of another accepted name, reported or not,
      and not the first token with nothing but spaces behind it. */
  lemma NameReportedByInput(p: Pattern, lex: seq<Lexeme>, h: nat)
    requires Nested(lex) && NoDoubles(p, lex) && h < |lex| && Hit(p, lex[h])
    ensures Reported(Spans(p, lex, 0), h) <==> !Enclosed(p, lex, h) && !(h == 0 && SpacesBetween(lex, 0, |lex|))
  {
    NameReportedExactly(p, lex, h);
    if Enclosed(p, lex, h) {
      var s: nat, b: nat :| EnclosedBy(p, lex, s, b, h);
      var s0, b0 := OutermostName(p, lex, s, b, h);
      assert !SpacesBetween(lex, s0, |lex|);
      OpenNameReported(p, lex, s0);
      SpanCoversBrackets(p, lex, s0, b0, h);
    } else if !(h == 0 && SpacesBetween(lex, 0, |lex|)) {
      OpenNameReported(p, lex, h);
    }
  }

  lemma SpanCoversBrackets(p: Pattern, lex: seq<Lexeme>, s: nat, b: nat, h: nat)
    requires Nested(lex) && EnclosedBy(p, lex, s, b, h) && Reported(Spans(p, lex, 0), s)
    ensures InEarlierSpan(Spans(p, lex, 0), h)
  {
    var spans := Spans(p, lex, 0);
    SpansFromNames(p, lex, 0);
    var k :| 0 <= k < |spans| && spans[k].start == s;
    assert FromName(p, lex, spans[k]) && !SpacesBetween(lex, s, |lex|);
    var c: nat :| FollowedBy(lex, s, c) && spans[k].end == SpanEnd(p, lex, c);
    OneFollower(lex, s, b, c);
  }

  /** The first shortcut is real: `f x()` searched for names followed by a parenthesis
      reports f alone when the pattern accepts both f and x. */
  lemma NameAfterBareNameIsMissed(p: Pattern, lex: seq<Lexeme>)
    requires p.delim == Paren && |lex| == 4
    requires Hit(p, lex[0]) && Hit(p, lex[1]) && lex[2] == Open(Paren) && lex[3] == Close(Paren)
    ensures Nested(lex) && Spans(p, lex, 0) == [Span(0, 0)]
  {
    assert StackAt(lex, 1) == Some([]);
    assert StackAt(lex, 2) == Some([]);
    assert StackAt(lex, 3) == Push([], lex[2]);
    assert StackAt(lex, 4) == Some([]);
    assert Spans(p, lex, 2) == Spans(p, lex, 3) == Spans(p, lex, 4) == [];
    assert SpansAfterName(p, lex, 0, 1) == [Span(0, 0)];
  }

  // Substitution.

  /** Python's tokens[a:b]. */
  function Slice<T>(tokens: seq<T>, a: nat, b: nat): seq<T> {
    var hi := if b <= |tokens| then b else |tokens|;
    if a <= hi then tokens[a..hi] else []
  }

  lemma SliceSplit<T>(tokens: seq<T>, a: nat, b: nat, c: nat)
    requires a <= b <= c
    ensures Slice(tokens, a, b) + Slice(tokens, b, c) == Slice(tokens, a, c)
  {}

  lemma SliceGrows<T>(tokens: seq<T>, a: nat, b: nat)
    requires a <= b
    ensures Slice(tokens, a, b + 1) == Slice(tokens, a, b) + Slice(tokens, b, b + 1)
    ensures Slice(tokens, b, b + 1) == if b < |tokens| then [tokens[b]] else []
  {}

  /** How many of the spans sub() replaces: a count of 0 means all. */
  function HowMany(spans: seq<Span>, count: nat): (n: nat)
    ensures n <= |spans| && (count == 0 || count > |spans| ==> n == |spans|) && (0 < count <= |spans| ==> n == count)
  {
    if count == 0 || |spans| <= count then |spans| else count
  }

  /** The position after the first n spans. */
  function After(spans: seq<Span>, n: nat): nat
    requires n <= |spans|
  {
    if n == 0 then 0 else spans[n - 1].end + 1
  }

  /** The tokens up to the end of the n-th span, with each of the n spans replaced. */
  function Built<T>(tokens: seq<T>, spans: seq<Span>, n: nat, replace: seq<T> -> seq<T>): seq<T>
    requires n <= |spans|
  {
    if n == 0 then []
    else
      Built(tokens, spans, n - 1, replace)
      + Slice(tokens, After(spans, n - 1), spans[n - 1].start)
      + replace(Slice(tokens, spans[n - 1].start, spans[n - 1].end + 1))
  }

  /** The whole list with its first n spans replaced. */
  function Replaced<T>(tokens: seq<T>, spans: seq<Span>, n: nat, replace: seq<T> -> seq<T>): seq<T>
    requires n <= |spans|
  {
    Built(tokens, spans, n, replace) + Slice(tokens, After(spans, n), |tokens|)
  }

  lemma BuiltNext<T>(tokens: seq<T>, spans: seq<Span>, n: nat, replace: seq<T> -> seq<T>)
    requires n < |spans|
    ensures After(spans, n + 1) == spans[n].end + 1
    ensures Built(tokens, spans, n + 1, replace)
         == Built(tokens, spans, n, replace) + Slice(tokens, After(spans, n), spans[n].start)
            + replace(Slice(tokens, spans[n].start, spans[n].end + 1))
  {}

  /** The rebuilding loop of sub(), with its early exit. */
  method Rebuild(tokens: seq<Token>, spans: seq<Span>, replace: seq<Token> -> seq<Token>, count: nat)
    returns (result: seq<Token>)
    ensures result == Replaced(tokens, spans, HowMany(spans, count), replace)
  {
    result := [];
    var pos: nat, n: nat := 0, 0;
    while n < |spans|
      invariant n <= |spans| && (count == 0 || n < count)
      invariant pos == After(spans, n) && result == Built(tokens, spans, n, replace)
      decreases |spans| - n
    {
      BuiltNext(tokens, spans, n, replace);
      var sp := spans[n];
      result := result + Slice(tokens, pos, sp.start);
      result := result + replace(Slice(tokens, sp.start, sp.end + 1));
      pos := sp.end + 1;
      n := n + 1;
      if count != 0 && n >= count { break; }
    }
    assert n == HowMany(spans, count);
    result := result + Slice(tokens, pos, |tokens|);
  }

  /** sub(): replaces the first `count` spans, all of them if count is 0. */
  method Substitute(p: Pattern, tokens: seq<Token>, replace: seq<Token> -> seq<Token>, count: nat)
    returns (result: seq<Token>)
    ensures forall lex :: Levelled(tokens, lex) && Nested(lex) ==>
              var spans := Spans(p, lex, 0);
              && (count == 0 ==> result == Replaced(tokens, spans, |spans|, replace))
              && (0 < count <= |spans| ==> result == Replaced(tokens, spans, count, replace))
              && (count > |spans| ==> result == Replaced(tokens, spans, |spans|, replace))
  {
    var spans := Search(p, tokens);
    result := Rebuild(tokens, spans, replace, count);
  }

  /** Token i lies in one of the first n spans. */
  predicate Covered(spans: seq<Span>, n: nat, i: nat)
    requires n <= |spans|
  {
    exists k :: 0 <= k < n && spans[k].start <= i <= spans[k].end
  }

  /** The tokens before `end` that lie in none of the first n spans, in order. */
  function Outside<T>(tokens: seq<T>, spans: seq<Span>, n: nat, end: nat): seq<T>
    requires n <= |spans|
  {
    if end == 0 then []
    else
      Outside(tokens, spans, n, end - 1)
      + if end - 1 < |tokens| && !Covered(spans, n, end - 1) then [tokens[end - 1]] else []
  }

  lemma {:induction false} OutsideKeeps<T>(tokens: seq<T>, spans: seq<Span>, n: nat, a: nat, b: nat)
    requires n <= |spans| && a <= b && forall i: nat :: a <= i < b ==> !Covered(spans, n, i)
    ensures Outside(tokens, spans, n, b) == Outside(tokens, spans, n, a) + Slice(tokens, a, b)
    decreases b
  {
    if a < b {
      OutsideKeeps(tokens, spans, n, a, b - 1);
      SliceGrows(tokens, a, b - 1);
      Regroup(Outside(tokens, spans, n, a), Slice(tokens, a, b - 1), Slice(tokens, b - 1, b));
      OutsideGrows(tokens, spans, n, b - 1);
    }
  }

  lemma OutsideGrows<T>(tokens: seq<T>, spans: seq<Span>, n: nat, i: nat)
    requires n <= |spans| && !Covered(spans, n, i)
    ensures Outside(tokens, spans, n, i + 1) == Outside(tokens, spans, n, i) + Slice(tokens, i, i + 1)
  {}

  lemma {:induction false} OutsideDrops<T>(tokens: seq<T>, spans: seq<Span>, n: nat, a: nat, b: nat)
    requires n <= |spans| && a <= b && forall i: nat :: a <= i < b ==> i >= |tokens| || Covered(spans, n, i)
    ensures Outside(tokens, spans, n, b) == Outside(tokens, spans, n, a)
    decreases b
  {
    if a < b { OutsideDrops(tokens, spans, n, a, b - 1); }
  }

  /** Up to the end of its m-th span, the list is what it was after the last one and the
      tokens between the two. */
  lemma OutsideNextSpan<T>(tokens: seq<T>, spans: seq<Span>, n: nat, m: nat)
    requires Apart(spans, 0) && 0 < m <= n <= |spans|
    ensures Outside(tokens, spans, n, After(spans, m))
         == Outside(tokens, spans, n, After(spans, m - 1)) + Slice(tokens, After(spans, m - 1), spans[m - 1].start)
  {
    var sp := spans[m - 1];
    OutsideKeeps(tokens, spans, n, After(spans, m - 1), sp.start);
    OutsideDrops(tokens, spans, n, sp.start, sp.end + 1);
  }

  lemma {:induction false} ErasedSoFar<T>(tokens: seq<T>, spans: seq<Span>, n: nat, m: nat, erase: seq<T> -> seq<T>)
    requires Apart(spans, 0) && m <= n <= |spans| && forall x :: erase(x) == []
    ensures Built(tokens, spans, m, erase) == Outside(tokens, spans, n, After(spans, m))
    decreases m
  {
    if m > 0 {
      ErasedSoFar(tokens, spans, n, m - 1, erase);
      OutsideNextSpan(tokens, spans, n, m);
    }
  }

  /** Replacing disjoint spans by nothing leaves exactly the other tokens, in order. */
  lemma ErasingKeepsTheRest<T>(tokens: seq<T>, spans: seq<Span>, n: nat, erase: seq<T> -> seq<T>)
    requires Apart(spans, 0) && n <= |spans| && forall x :: erase(x) == []
    ensures Replaced(tokens, spans, n, erase) == Outside(tokens, spans, n, |tokens|)
  {
    ErasedSoFar(tokens, spans, n, n, erase);
    if After(spans, n) <= |tokens| {
      OutsideKeeps(tokens, spans, n, After(spans, n), |tokens|);
    } else {
      OutsideDrops(tokens, spans, n, |tokens|, After(spans, n));
    }
  }

  lemma {:induction false} PutBackSoFar<T>(tokens: seq<T>, spans: seq<Span>, n: nat, same: seq<T> -> seq<T>)
    requires Apart(spans, 0) && n <= |spans| && forall x :: same(x) == x
    ensures Built(tokens, spans, n, same) == Slice(tokens, 0, After(spans, n))
  {
    if n > 0 {
      PutBackSoFar(tokens, spans, n - 1, same);
      SliceSplit(tokens, 0, After(spans, n - 1), spans[n - 1].start);
      SliceSplit(tokens, 0, spans[n - 1].start, After(spans, n));
    }
  }

  /** What sub() keeps: erasing removes precisely the (first `count`) spans and keeps every
      other token in order; putting each span back restores the list. */
  lemma SubKeepsTheRest(p: Pattern, lex: seq<Lexeme>, tokens: seq<Token>, count: nat, erase: seq<Token> -> seq<Token>, same: seq<Token> -> seq<Token>)
    requires Nested(lex)
    requires (forall x :: erase(x) == []) && (forall x :: same(x) == x)
    ensures var spans := Spans(p, lex, 0);
            var n := HowMany(spans, count);
            && Replaced(tokens, spans, n, erase) == Outside(tokens, spans, n, |tokens|)
            && Replaced(tokens, spans, n, same) == tokens
  {
    var spans := Spans(p, lex, 0);
    var n := HowMany(spans, count);
    SpansIncrease(p, lex, 0);
    ErasingKeepsTheRest(tokens, spans, n, erase);
    PutBackSoFar(tokens, spans, n, same);
    if After(spans, n) <= |tokens| { SliceSplit(tokens, 0, After(spans, n), |tokens|); }
  }
}
