/** The quote- and comment-aware scanner of internal/flink/sqlrewrite.go. A string stands for
    valid UTF-8 text, one element per code point; every character the scanner tests is ASCII. */
module SqlScanner {

  // ---------- the scanner of the program ----------

  function LiteralEnd(s: string, i: nat): (r: nat)
    requires i <= |s|
    ensures i <= r <= |s|
    decreases |s| - i
  {
    if i == |s| then i
    else if s[i] != '\'' then LiteralEnd(s, i + 1)
    else if i + 1 < |s| && s[i + 1] == '\'' then LiteralEnd(s, i + 2)
    else i + 1
  }

  function LineCommentEnd(s: string, i: nat): (r: nat)
    requires i <= |s|
    ensures i <= r <= |s|
    decreases |s| - i
  {
    if i < |s| && s[i] != '\n' then LineCommentEnd(s, i + 1) else i
  }

  /** Past the closing star-slash; past the end of the text if there is none. */
  function BlockCommentEnd(s: string, i: nat): (r: nat)
    requires i <= |s|
    ensures i + 2 <= r <= |s| + 2
    decreases |s| - i
  {
    if i + 1 < |s| && !(s[i] == '*' && s[i + 1] == '/') then BlockCommentEnd(s, i + 1) else i + 2
  }

  predicate LiteralAt(s: string, i: nat) {
    i < |s| && s[i] == '\''
  }

  predicate LineCommentAt(s: string, i: nat) {
    i + 1 < |s| && s[i] == '-' && s[i + 1] == '-'
  }

  predicate BlockCommentAt(s: string, i: nat) {
    i + 1 < |s| && s[i] == '/' && s[i + 1] == '*'
  }

  predicate TokenAt(s: string, i: nat) {
    LiteralAt(s, i) || LineCommentAt(s, i) || BlockCommentAt(s, i)
  }

  /** The end of the literal or comment at `i`, or `i` itself. It may lie past the end. */
  function Skip(s: string, i: nat): (r: nat)
    ensures i <= r
    ensures TokenAt(s, i) ==> i < r <= |s| + 2
    ensures !TokenAt(s, i) ==> r == i
    ensures LiteralAt(s, i) ==> r <= |s|
  {
    if LiteralAt(s, i) then LiteralEnd(s, i + 1)
    else if LineCommentAt(s, i) then LineCommentEnd(s, i + 2)
    else if BlockCommentAt(s, i) then BlockCommentEnd(s, i + 2)
    else i
  }

  method SkipQuotesAndComments(s: string, start: nat) returns (i: nat)
    ensures i == Skip(s, start)
  {
    i := start;
    if i >= |s| {
      return;
    }
    if s[i] == '\'' {
      i := i + 1;
      while i < |s|
        invariant i <= |s| && LiteralEnd(s, start + 1) == LiteralEnd(s, i)
      {
        if s[i] == '\'' {
          if i + 1 < |s| && s[i + 1] == '\'' {
            i := i + 2;
            continue;
          }
          return i + 1;
        }
        i := i + 1;
      }
    } else if s[i] == '-' && i + 1 < |s| && s[i + 1] == '-' {
      while i < |s| && s[i] != '\n'
        invariant i <= |s| && LineCommentEnd(s, start) == LineCommentEnd(s, i)
      {
        i := i + 1;
      }
    } else if s[i] == '/' && i + 1 < |s| && s[i + 1] == '*' {
      i := i + 2;
      while i + 1 < |s| && !(s[i] == '*' && s[i + 1] == '/')
        invariant i <= |s| && BlockCommentEnd(s, start + 2) == BlockCommentEnd(s, i)
      {
        i := i + 1;
      }
      i := i + 2;
    }
  }

  /** The positions that the scanning loops look at as code: they skip one literal or comment and
      then take the next character as it is. */
  function Visited(s: string, i: nat): set<nat>
    decreases |s| - i
  {
    var j := Skip(s, i);
    if j >= |s| then {} else {j} + Visited(s, j + 1)
  }

  // ---------- a reference tokenizer ----------

  datatype Mode = Code | Literal | LineComment | BlockComment

  /** How many characters the tokenizer takes at `i`, the mode it is in afterwards, and whether
      the character is code. */
  function Lex(s: string, i: nat, mode: Mode): (r: (nat, Mode, bool))
    requires i < |s|
    ensures 0 < r.0 && i + r.0 <= |s|
  {
    var two := i + 1 < |s|;
    match mode
    case Code =>
      if s[i] == '\'' then (1, Literal, false)
      else if two && s[i] == '-' && s[i + 1] == '-' then (2, LineComment, false)
      else if two && s[i] == '/' && s[i + 1] == '*' then (2, BlockComment, false)
      else (1, Code, true)
    case Literal =>
      if two && s[i] == '\'' && s[i + 1] == '\'' then (2, Literal, false)
      else if s[i] == '\'' then (1, Code, false)
      else (1, Literal, false)
    case LineComment =>
      if s[i] == '\n' then (1, Code, true) else (1, LineComment, false)
    case BlockComment =>
      if two && s[i] == '*' && s[i + 1] == '/' then (2, Code, false) else (1, BlockComment, false)
  }

  /** The positions of code: neither quoted nor commented. */
  function Plain(s: string, i: nat, mode: Mode): set<nat>
    decreases |s| - i
  {
    if i >= |s| then {}
    else
      var (n, next, code) := Lex(s, i, mode);
      (if code then {i} else {}) + Plain(s, i + n, next)
  }

  lemma {:induction false} PlainBounds(s: string, i: nat, mode: Mode)
    ensures forall k :: k in Plain(s, i, mode) ==> i <= k < |s|
    decreases |s| - i
  {
    if i < |s| {
      var (n, next, _) := Lex(s, i, mode);
      PlainBounds(s, i + n, next);
    }
  }

  lemma {:induction false} PlainAfterLiteral(s: string, i: nat)
    requires i <= |s|
    ensures Plain(s, i, Literal) == Plain(s, LiteralEnd(s, i), Code)
    decreases |s| - i
  {
    if i < |s| {
      if s[i] != '\'' {
        PlainAfterLiteral(s, i + 1);
      } else if i + 1 < |s| && s[i + 1] == '\'' {
        PlainAfterLiteral(s, i + 2);
      }
    }
  }

  lemma {:induction false} PlainAfterLineComment(s: string, i: nat)
    requires i <= |s|
    ensures Plain(s, i, LineComment) == Plain(s, LineCommentEnd(s, i), Code)
    decreases |s| - i
  {
    if i < |s| && s[i] != '\n' {
      PlainAfterLineComment(s, i + 1);
    }
  }

  lemma {:induction false} PlainAfterBlockComment(s: string, i: nat)
    requires i <= |s|
    ensures Plain(s, i, BlockComment) == Plain(s, BlockCommentEnd(s, i), Code)
    decreases |s| - i
  {
    if i + 1 < |s| && !(s[i] == '*' && s[i + 1] == '/') {
      PlainAfterBlockComment(s, i + 1);
    }
  }

  /** A whole literal or comment is not code. */
  lemma PlainAfterToken(s: string, i: nat)
    ensures Plain(s, i, Code) == (if TokenAt(s, i) then Plain(s, Skip(s, i), Code)
                                  else if i < |s| then {i} + Plain(s, i + 1, Code)
                                  else {})
  {
    if LiteralAt(s, i) {
      PlainAfterLiteral(s, i + 1);
    } else if LineCommentAt(s, i) {
      PlainAfterLineComment(s, i + 2);
    } else if BlockCommentAt(s, i) {
      PlainAfterBlockComment(s, i + 2);
    }
  }

  // ---------- when the scanner agrees with the tokenizer ----------

  /** No literal or comment is immediately followed by another literal or comment. */
  predicate NoAdjacentTokens(s: string, i: nat)
    decreases |s| - i
  {
    if i >= |s| then true
    else if TokenAt(s, i) then !TokenAt(s, Skip(s, i)) && NoAdjacentTokens(s, Skip(s, i))
    else NoAdjacentTokens(s, i + 1)
  }

  lemma {:induction false} VisitedBounds(s: string, i: nat)
    ensures forall k :: k in Visited(s, i) ==> i <= k < |s|
    decreases |s| - i
  {
    var j := Skip(s, i);
    if j < |s| {
      VisitedBounds(s, j + 1);
    }
  }

  /** The scanner looks at exactly the code of the text if and only if no two literals or comments
      are adjacent: after skipping one of them it takes the next character for code. */
  lemma {:induction false} ScannerSeesCodeExactly(s: string, i: nat)
    ensures Visited(s, i) == Plain(s, i, Code) <==> NoAdjacentTokens(s, i)
    decreases |s| - i
  {
    var j := Skip(s, i);
    PlainAfterToken(s, i);
    if i >= |s| {
    } else if !TokenAt(s, i) {
      ScannerSeesCodeExactly(s, i + 1);
      VisitedBounds(s, i + 1);
      PlainBounds(s, i + 1, Code);
      AddBoth(i, Visited(s, i + 1), Plain(s, i + 1, Code));
    } else if TokenAt(s, j) {
      PlainAfterToken(s, j);
      PlainBounds(s, Skip(s, j), Code);
      assert j in Visited(s, i) && j !in Plain(s, i, Code);
    } else {
      assert Visited(s, i) == Visited(s, j);
      ScannerSeesCodeExactly(s, j);
    }
  }

  lemma AddBoth(x: nat, a: set<nat>, b: set<nat>)
    requires x !in a && x !in b
    ensures {x} + a == {x} + b <==> a == b
  {
    assert {x} + a - {x} == a && {x} + b - {x} == b;
  }

  // ---------- matching parentheses ----------

  /** Opening minus closing parentheses among the given positions in [lo, hi). */
  function Depth(s: string, positions: set<nat>, lo: nat, hi: nat): int
    requires lo <= hi <= |s|
    decreases hi
  {
    if lo == hi then 0
    else Depth(s, positions, lo, hi - 1)
         + (if hi - 1 !in positions then 0 else if s[hi - 1] == '(' then 1 else if s[hi - 1] == ')' then -1 else 0)
  }

  /** A closing parenthesis among `positions` that brings the depth to zero. */
  predicate Closes(s: string, positions: set<nat>, open: nat, k: nat) {
    open <= k < |s| && k in positions && s[k] == ')' && Depth(s, positions, open, k + 1) == 0
  }

  /** `r` is the first closing parenthesis that brings the depth to zero, -1 if there is none. */
  ghost predicate IsMatch(s: string, positions: set<nat>, open: nat, r: int) {
    && -1 <= r < |s|
    && (r >= 0 ==> Closes(s, positions, open, r))
    && (forall k: nat :: k < (if r >= 0 then r else |s|) ==> !Closes(s, positions, open, k))
  }

  /** The loop of the program from position `i` at the given depth. */
  function MatchFrom(s: string, i: nat, depth: int): (r: int)
    ensures r == -1 || i <= r < |s|
    decreases |s| - i
  {
    var j := Skip(s, i);
    if j >= |s| then -1
    else if s[j] == '(' then MatchFrom(s, j + 1, depth + 1)
    else if s[j] == ')' then if depth - 1 == 0 then j else MatchFrom(s, j + 1, depth - 1)
    else MatchFrom(s, j + 1, depth)
  }

  method MatchParen(s: string, open: nat) returns (r: int)
    ensures r == MatchFrom(s, open, 0)
    ensures IsMatch(s, Visited(s, open), open, r)
    ensures NoAdjacentTokens(s, open) ==> IsMatch(s, Plain(s, open, Code), open, r)
  {
    MatchFromIsMatch(s, Visited(s, open), open, open, 0);
    ScannerSeesCodeExactly(s, open);
    var depth := 0;
    var i := open;
    while i < |s|
      invariant MatchFrom(s, open, 0) == MatchFrom(s, i, depth)
    {
      i := SkipQuotesAndComments(s, i);
      if i >= |s| {
        return -1;
      }
      if s[i] == '(' {
        depth := depth + 1;
      } else if s[i] == ')' {
        depth := depth - 1;
        if depth == 0 {
          return i;
        }
      }
      i := i + 1;
    }
    return -1;
  }

  lemma {:induction false} DepthSkips(s: string, positions: set<nat>, lo: nat, i: nat, j: nat)
    requires lo <= i <= j <= |s|
    requires forall k :: i <= k < j ==> k !in positions
    ensures Depth(s, positions, lo, j) == Depth(s, positions, lo, i)
    decreases j
  {
    if i < j {
      DepthSkips(s, positions, lo, i, j - 1);
    }
  }

  lemma VisitedStep(s: string, i: nat)
    requires Skip(s, i) < |s|
    ensures Visited(s, i) == {Skip(s, i)} + Visited(s, Skip(s, i) + 1)
    ensures forall k :: k in Visited(s, i) ==> k >= Skip(s, i)
  {
    VisitedBounds(s, Skip(s, i) + 1);
  }

  /** The loop, started at `i` with the depth reached so far, finds the match. */
  lemma {:induction false} MatchFromIsMatch(s: string, seen: set<nat>, open: nat, i: nat, depth: int)
    requires open <= i
    requires i <= |s| ==> depth == Depth(s, seen, open, i)
    requires forall k :: k >= i ==> (k in seen <==> k in Visited(s, i))
    requires forall k: nat :: k < i ==> !Closes(s, seen, open, k)
    ensures IsMatch(s, seen, open, MatchFrom(s, i, depth))
    decreases |s| - i
  {
    var j := Skip(s, i);
    if j < |s| {
      VisitedStep(s, i);
      DepthSkips(s, seen, open, i, j);
      var depth' := Depth(s, seen, open, j + 1);
      assert depth' == depth + (if s[j] == '(' then 1 else if s[j] == ')' then -1 else 0);
      if !(s[j] == ')' && depth' == 0) {
        MatchFromIsMatch(s, seen, open, j + 1, depth');
      }
    } else {
      VisitedBounds(s, i);
    }
  }

  /** The comment that directly follows a literal hides a parenthesis from a reader, but not from
      the scanner: it closes the block inside the comment. */
  lemma AdjacentCommentMisleads()
    ensures var s := "('a'/*)*/)";
            MatchFrom(s, 0, 0) == 6 && !IsMatch(s, Plain(s, 0, Code), 0, 6) && !NoAdjacentTokens(s, 0)
  {
    var s := "('a'/*)*/)";
    assert LiteralEnd(s, 2) == 4 && Skip(s, 1) == 4;
    assert BlockCommentEnd(s, 6) == 9 && Skip(s, 4) == 9;
    assert MatchFrom(s, 1, 1) == MatchFrom(s, 5, 1) == MatchFrom(s, 6, 1) == 6;
    PlainAfterToken(s, 0);
    PlainAfterToken(s, 1);
    PlainAfterToken(s, 4);
    PlainBounds(s, 9, Code);
    assert 6 !in Plain(s, 0, Code);
  }

  // ---------- finding a WITH block ----------

  predicate IsSpace(c: char) {
    c == ' ' || c == '\t' || c == '\n' || c == '\r'
  }

  predicate IsWordChar(c: char) {
    c == '_' || 'a' <= c <= 'z' || 'A' <= c <= 'Z' || '0' <= c <= '9'
  }

  function Upper(c: char): char {
    if 'a' <= c <= 'z' then c - 'a' + 'A' else c
  }

  /** The word WITH in any case, with word boundaries on both sides. */
  predicate WithAt(s: string, i: nat) {
    && i + 4 <= |s|
    && Upper(s[i]) == 'W' && Upper(s[i + 1]) == 'I' && Upper(s[i + 2]) == 'T' && Upper(s[i + 3]) == 'H'
    && (i > 0 ==> !IsWordChar(s[i - 1]))
    && (i + 4 < |s| ==> !IsWordChar(s[i + 4]))
  }

  function SkipSpaces(s: string, i: nat): (r: nat)
    requires i <= |s|
    ensures i <= r <= |s|
    decreases |s| - i
  {
    if i < |s| && IsSpace(s[i]) then SkipSpaces(s, i + 1) else i
  }

  /** One step of the search: it ends, or it goes on at a later position. */
  datatype SearchResult = Found(open: int) | Continue(next: nat)

  function SearchStep(s: string, i: nat): (r: SearchResult)
    ensures match r
            case Found(open) => open == -1 || (i + 4 <= open < |s| && s[open] == '(')
            case Continue(next) => i < next <= |s|
  {
    var j := Skip(s, i);
    if j >= |s| then Found(-1)
    else if WithAt(s, j) then
      var k := SkipSpaces(s, j + 4);
      if k < |s| && s[k] == '(' then Found(k) else Continue(k)
    else if s[j] == ';' then Found(-1)
    else Continue(j + 1)
  }

  /** The open parenthesis of the first WITH block of the statement, -1 if the statement or the
      text ends first. */
  function FindOpen(s: string, i: nat): (r: int)
    ensures r == -1 || (i + 4 <= r < |s| && s[r] == '(')
    decreases |s| - i
  {
    match SearchStep(s, i)
    case Found(open) => open
    case Continue(next) => FindOpen(s, next)
  }

  method FindWithOpenParen(s: string, start: nat) returns (r: int)
    ensures r == FindOpen(s, start)
  {
    var i := start;
    while i < |s|
      invariant FindOpen(s, start) == FindOpen(s, i)
      decreases |s| - i
    {
      i := SkipQuotesAndComments(s, i);
      if i >= |s| {
        return -1;
      }
      if WithAt(s, i) {
        var j := i + 4;
        while j < |s| && IsSpace(s[j])
          invariant i + 4 <= j <= |s| && SkipSpaces(s, i + 4) == SkipSpaces(s, j)
        {
          j := j + 1;
        }
        if j < |s| && s[j] == '(' {
          return j;
        }
        i := j;
      } else if s[i] == ';' {
        return -1;
      } else {
        i := i + 1;
      }
    }
    return -1;
  }

  /** Where no literal or comment starts, the scanner looks at every position. */
  lemma {:induction false} VisitedRun(s: string, i: nat, k: nat)
    requires i <= k <= |s| && forall p :: i <= p < k ==> !TokenAt(s, p)
    ensures forall p :: p in Visited(s, i) <==> i <= p < k || p in Visited(s, k)
    decreases k - i
  {
    if i < k {
      VisitedRun(s, i + 1, k);
    }
  }

  lemma {:induction false} SkippedAreSpaces(s: string, i: nat)
    requires i <= |s|
    ensures forall p :: i <= p < SkipSpaces(s, i) ==> IsSpace(s[p])
    decreases |s| - i
  {
    if i < |s| && IsSpace(s[i]) {
      SkippedAreSpaces(s, i + 1);
    }
  }

  /** Neither the rest of a WITH nor white space starts a token, ends the statement or starts another
      WITH. */
  lemma NothingInside(s: string, j: nat, k: nat)
    requires WithAt(s, j) && k == SkipSpaces(s, j + 4)
    ensures forall p :: j < p < k ==> !TokenAt(s, p) && s[p] != ';' && !WithAt(s, p)
  {
    SkippedAreSpaces(s, j + 4);
  }

  /** Among the positions `seen`, `with` is a WITH keyword in front of the first semicolon. */
  predicate WithInStatement(s: string, seen: set<nat>, with: nat) {
    && with in seen && WithAt(s, with)
    && forall p | p in seen && p < with :: p < |s| ==> s[p] != ';'
  }

  /** ... followed by an open parenthesis. */
  predicate OpensBlock(s: string, seen: set<nat>, with: nat) {
    && WithInStatement(s, seen, with)
    && SkipSpaces(s, with + 4) < |s| && s[SkipSpaces(s, with + 4)] == '('
  }

  /** `open` is the parenthesis of the first keyword that opens a block; it is negative if there is
      none. */
  ghost predicate IsFirstOpen(s: string, seen: set<nat>, open: int) {
    && (open >= 0 ==> open in seen && exists with: nat :: OpensBlock(s, seen, with) && SkipSpaces(s, with + 4) == open)
    && (forall with: nat :: OpensBlock(s, seen, with) ==> 0 <= open <= SkipSpaces(s, with + 4))
  }

  /** A statement that begins earlier, with nothing in between that matters. */
  lemma OpenFromEarlier(s: string, seen: set<nat>, later: set<nat>, j: nat, k: nat, open: int)
    requires j < k <= |s| && IsFirstOpen(s, later, open)
    requires forall p :: p in seen <==> j <= p < k || p in later
    requires forall p :: p in later ==> k <= p
    requires forall p :: j <= p < k ==> s[p] != ';'
    requires forall p :: j <= p < k && WithAt(s, p) ==> !OpensBlock(s, seen, p)
    ensures IsFirstOpen(s, seen, open)
  {
    forall with: nat | with in later
      ensures OpensBlock(s, seen, with) <==> OpensBlock(s, later, with)
    {
    }
    if open >= 0 {
      var with: nat :| OpensBlock(s, later, with) && SkipSpaces(s, with + 4) == open;
      assert OpensBlock(s, seen, with);
    }
    forall with: nat | OpensBlock(s, seen, with)
      ensures 0 <= open <= SkipSpaces(s, with + 4)
    {
      assert with in later;
    }
  }

  /** On any text the search returns the parenthesis of the first WITH, among the characters that it
      looks at, that opens a block before a semicolon is met. */
  lemma {:induction false} FindOpenAmongVisited(s: string, i: nat)
    ensures IsFirstOpen(s, Visited(s, i), FindOpen(s, i))
    decreases |s| - i
  {
    var j := Skip(s, i);
    if j < |s| {
      VisitedStep(s, i);
      VisitedBounds(s, j + 1);
      if WithAt(s, j) {
        OpenAtWith(s, i, j);
      } else if s[j] != ';' {
        FindOpenAmongVisited(s, j + 1);
        OpenFromEarlier(s, Visited(s, i), Visited(s, j + 1), j, j + 1, FindOpen(s, i));
      }
    }
  }

  lemma {:induction false} OpenAtWith(s: string, i: nat, j: nat)
    requires j == Skip(s, i) && WithAt(s, j)
    ensures IsFirstOpen(s, Visited(s, i), FindOpen(s, i))
    decreases |s| - i, 0
  {
    var k, seen := SkipSpaces(s, j + 4), Visited(s, i);
    VisitedStep(s, i);
    NothingInside(s, j, k);
    VisitedRun(s, j + 1, k);
    VisitedBounds(s, k);
    if k < |s| && s[k] == '(' {
      assert OpensBlock(s, seen, j);
      assert Skip(s, k) == k;
      assert k in Visited(s, k);
      forall with: nat | OpensBlock(s, seen, with)
        ensures k <= SkipSpaces(s, with + 4)
      {
        assert with == j || k <= with;
      }
    } else {
      FindOpenAmongVisited(s, k);
      OpenFromEarlier(s, seen, Visited(s, k), j, k, FindOpen(s, i));
    }
  }

  /** So on text without adjacent tokens it is the first block of the statement, as a reader sees it:
      the parenthesis and its WITH are code, and nothing is returned only if there is none. */
  lemma FindOpenIsFirst(s: string, i: nat)
    requires NoAdjacentTokens(s, i)
    ensures IsFirstOpen(s, Plain(s, i, Code), FindOpen(s, i))
  {
    FindOpenAmongVisited(s, i);
    ScannerSeesCodeExactly(s, i);
  }

  // ---------- the scan looks no further than what it returns ----------

  /** The texts agree up to and including an open parenthesis at `n - 1`. */
  predicate SamePrefix(s: string, t: string, n: nat) {
    0 < n <= |s| && n <= |t| && s[n - 1] == '(' && forall k | 0 <= k < n :: s[k] == t[k]
  }

  lemma {:induction false} SkipLocal(s: string, t: string, n: nat, i: nat)
    requires SamePrefix(s, t, n) && Skip(s, i) < n
    ensures Skip(t, i) == Skip(s, i)
  {
    if LiteralAt(s, i) {
      LiteralLocal(s, t, n, i + 1);
    } else if LineCommentAt(s, i) {
      LineLocal(s, t, n, i + 2);
    } else if BlockCommentAt(s, i) {
      BlockLocal(s, t, n, i + 2);
    }
  }

  lemma {:induction false} LiteralLocal(s: string, t: string, n: nat, i: nat)
    requires SamePrefix(s, t, n) && i <= n && LiteralEnd(s, i) < n
    ensures LiteralEnd(t, i) == LiteralEnd(s, i)
    decreases |s| - i
  {
    if s[i] != '\'' {
      LiteralLocal(s, t, n, i + 1);
    } else if i + 1 < |s| && s[i + 1] == '\'' {
      LiteralLocal(s, t, n, i + 2);
    }
  }

  lemma {:induction false} LineLocal(s: string, t: string, n: nat, i: nat)
    requires SamePrefix(s, t, n) && i <= n && LineCommentEnd(s, i) < n
    ensures LineCommentEnd(t, i) == LineCommentEnd(s, i)
    decreases |s| - i
  {
    if s[i] != '\n' {
      LineLocal(s, t, n, i + 1);
    }
  }

  lemma {:induction false} BlockLocal(s: string, t: string, n: nat, i: nat)
    requires SamePrefix(s, t, n) && i <= n && BlockCommentEnd(s, i) < n
    ensures BlockCommentEnd(t, i) == BlockCommentEnd(s, i)
    decreases |s| - i
  {
    if !(s[i] == '*' && s[i + 1] == '/') {
      BlockLocal(s, t, n, i + 1);
    }
  }

  lemma {:induction false} SpacesLocal(s: string, t: string, n: nat, i: nat)
    requires SamePrefix(s, t, n) && i <= n && SkipSpaces(s, i) < n
    ensures SkipSpaces(t, i) == SkipSpaces(s, i)
    decreases |s| - i
  {
    if IsSpace(s[i]) {
      SpacesLocal(s, t, n, i + 1);
    }
  }

  lemma WithLocal(s: string, t: string, n: nat, j: nat)
    requires SamePrefix(s, t, n) && j < n
    ensures WithAt(t, j) == WithAt(s, j)
  {
  }

  /** Where the search ends: at the parenthesis it returns, at a semicolon, or with the text. */
  function StopAt(s: string, i: nat): (r: nat)
    ensures Skip(s, i) <= r || r == |s|
    ensures FindOpen(s, i) >= 0 ==> r == FindOpen(s, i)
    decreases |s| - i
  {
    match SearchStep(s, i)
    case Found(open) => if open >= 0 then open else if Skip(s, i) < |s| then Skip(s, i) else |s|
    case Continue(next) => StopAt(s, next)
  }

  /** One step of the search sees the same in both texts. */
  lemma StepLocal(s: string, t: string, n: nat, i: nat)
    requires SamePrefix(s, t, n) && StopAt(s, i) < n
    ensures SearchStep(t, i) == SearchStep(s, i)
  {
    var j := Skip(s, i);
    SkipLocal(s, t, n, i);
    WithLocal(s, t, n, j);
    if WithAt(s, j) {
      SpacesLocal(s, t, n, j + 4);
    }
  }

  /** A search that ends in front of `n` depends on nothing behind. */
  lemma {:induction false} SearchLocal(s: string, t: string, n: nat, i: nat)
    requires SamePrefix(s, t, n) && StopAt(s, i) < n
    ensures FindOpen(t, i) == FindOpen(s, i)
    decreases |s| - i
  {
    StepLocal(s, t, n, i);
    if SearchStep(s, i).Continue? {
      SearchLocal(s, t, n, SearchStep(s, i).next);
    }
  }

  /** The open parenthesis is found again in every text that agrees up to and including it. */
  lemma FindOpenLocal(s: string, t: string, i: nat)
    requires FindOpen(s, i) >= 0 && SamePrefix(s, t, FindOpen(s, i) + 1)
    ensures FindOpen(t, i) == FindOpen(s, i)
  {
    SearchLocal(s, t, FindOpen(s, i) + 1, i);
  }

  lemma {:induction false} MatchLocal(s: string, t: string, n: nat, i: nat, depth: int)
    requires SamePrefix(s, t, n) && 0 <= MatchFrom(s, i, depth) < n
    ensures MatchFrom(t, i, depth) == MatchFrom(s, i, depth)
    decreases |s| - i
  {
    var j := Skip(s, i);
    SkipLocal(s, t, n, i);
    var depth' := if s[j] == '(' then depth + 1 else if s[j] == ')' then depth - 1 else depth;
    if !(s[j] == ')' && depth' == 0) {
      MatchLocal(s, t, n, j + 1, depth');
    }
  }

  // ---------- the scan moves with the text ----------

  /** From `a` on, `t` is `s` moved by `d`. */
  predicate Moved(s: string, t: string, a: nat, d: int) {
    0 <= a + d && a <= |s| && |t| == |s| + d && forall k | a <= k < |s| :: t[k + d] == s[k]
  }

  lemma {:induction false} LiteralMoved(s: string, t: string, a: nat, d: int, i: nat)
    requires Moved(s, t, a, d) && a <= i <= |s|
    ensures i + d >= 0 && LiteralEnd(t, i + d) == LiteralEnd(s, i) + d
    decreases |s| - i
  {
    if i < |s| {
      LiteralMoved(s, t, a, d, i + 1);
      if i + 1 < |s| {
        LiteralMoved(s, t, a, d, i + 2);
      }
    }
  }

  lemma {:induction false} LineMoved(s: string, t: string, a: nat, d: int, i: nat)
    requires Moved(s, t, a, d) && a <= i <= |s|
    ensures i + d >= 0 && LineCommentEnd(t, i + d) == LineCommentEnd(s, i) + d
    decreases |s| - i
  {
    if i < |s| {
      LineMoved(s, t, a, d, i + 1);
    }
  }

  lemma {:induction false} BlockMoved(s: string, t: string, a: nat, d: int, i: nat)
    requires Moved(s, t, a, d) && a <= i <= |s|
    ensures i + d >= 0 && BlockCommentEnd(t, i + d) == BlockCommentEnd(s, i) + d
    decreases |s| - i
  {
    if i < |s| {
      BlockMoved(s, t, a, d, i + 1);
    }
  }

  lemma SkipMoved(s: string, t: string, a: nat, d: int, i: nat)
    requires Moved(s, t, a, d) && a <= i
    ensures i + d >= 0 && Skip(t, i + d) == Skip(s, i) + d
  {
    if i < |s| {
      LiteralMoved(s, t, a, d, i + 1);
    }
    if i + 2 <= |s| {
      LineMoved(s, t, a, d, i + 2);
      BlockMoved(s, t, a, d, i + 2);
    }
  }

  lemma {:induction false} SpacesMoved(s: string, t: string, a: nat, d: int, i: nat)
    requires Moved(s, t, a, d) && a <= i <= |s|
    ensures i + d >= 0 && SkipSpaces(t, i + d) == SkipSpaces(s, i) + d
    decreases |s| - i
  {
    if i < |s| {
      SpacesMoved(s, t, a, d, i + 1);
    }
  }

  lemma {:induction false} MatchMoved(s: string, t: string, a: nat, d: int, i: nat, depth: int)
    requires Moved(s, t, a, d) && a <= i
    ensures i + d >= 0
    ensures MatchFrom(t, i + d, depth) == (if MatchFrom(s, i, depth) < 0 then -1 else MatchFrom(s, i, depth) + d)
    decreases |s| - i
  {
    var j := Skip(s, i);
    SkipMoved(s, t, a, d, i);
    if j < |s| {
      MatchMoved(s, t, a, d, j + 1, if s[j] == '(' then depth + 1 else if s[j] == ')' then depth - 1 else depth);
    }
  }

  /** A keyword also depends on the character in front of it. */
  lemma WithMoved(s: string, t: string, a: nat, d: int, j: nat)
    requires Moved(s, t, a, d) && a < j
    ensures j + d >= 0 && WithAt(t, j + d) == WithAt(s, j)
  {
  }

  function MovedStep(r: SearchResult, d: int): SearchResult {
    match r
    case Found(open) => Found(if open < 0 then -1 else open + d)
    case Continue(next) => if next + d >= 0 then Continue(next + d) else r
  }

  /** One step of the search sees the same in both texts. */
  lemma StepMoved(s: string, t: string, a: nat, d: int, i: nat)
    requires Moved(s, t, a, d) && a < i
    ensures i + d >= 0 && SearchStep(t, i + d) == MovedStep(SearchStep(s, i), d)
  {
    var j := Skip(s, i);
    SkipMoved(s, t, a, d, i);
    if j < |s| {
      WithMoved(s, t, a, d, j);
      if WithAt(s, j) {
        SpacesMoved(s, t, a, d, j + 4);
      }
    }
  }

  lemma {:induction false} FindOpenMoved(s: string, t: string, a: nat, d: int, i: nat)
    requires Moved(s, t, a, d) && a < i
    ensures i + d >= 0 && FindOpen(t, i + d) == (if FindOpen(s, i) < 0 then -1 else FindOpen(s, i) + d)
    decreases |s| - i
  {
    StepMoved(s, t, a, d, i);
    if SearchStep(s, i).Continue? {
      FindOpenMoved(s, t, a, d, SearchStep(s, i).next);
    }
  }

  // ---------- the case of letters ----------

  /** The same character, or the same ASCII letter in the other case. */
  predicate SameLetter(c: char, d: char) {
    c == d || ('a' <= c <= 'z' && d as int == c as int - 32) || ('A' <= c <= 'Z' && d as int == c as int + 32)
  }

  predicate SameButCase(s: string, t: string) {
    |s| == |t| && forall k | 0 <= k < |s| :: SameLetter(s[k], t[k])
  }

  lemma {:induction false} LiteralAnyCase(s: string, t: string, i: nat)
    requires SameButCase(s, t) && i <= |s|
    ensures LiteralEnd(t, i) == LiteralEnd(s, i)
    decreases |s| - i
  {
    if i < |s| {
      LiteralAnyCase(s, t, i + 1);
      if i + 1 < |s| {
        LiteralAnyCase(s, t, i + 2);
      }
    }
  }

  lemma {:induction false} LineAnyCase(s: string, t: string, i: nat)
    requires SameButCase(s, t) && i <= |s|
    ensures LineCommentEnd(t, i) == LineCommentEnd(s, i)
    decreases |s| - i
  {
    if i < |s| {
      LineAnyCase(s, t, i + 1);
    }
  }

  lemma {:induction false} BlockAnyCase(s: string, t: string, i: nat)
    requires SameButCase(s, t) && i <= |s|
    ensures BlockCommentEnd(t, i) == BlockCommentEnd(s, i)
    decreases |s| - i
  {
    if i < |s| {
      BlockAnyCase(s, t, i + 1);
    }
  }

  lemma SkipAnyCase(s: string, t: string, i: nat)
    requires SameButCase(s, t)
    ensures Skip(t, i) == Skip(s, i)
  {
    if i < |s| {
      LiteralAnyCase(s, t, i + 1);
    }
    if i + 2 <= |s| {
      LineAnyCase(s, t, i + 2);
      BlockAnyCase(s, t, i + 2);
    }
  }

  lemma {:induction false} SpacesAnyCase(s: string, t: string, i: nat)
    requires SameButCase(s, t) && i <= |s|
    ensures SkipSpaces(t, i) == SkipSpaces(s, i)
    decreases |s| - i
  {
    if i < |s| {
      SpacesAnyCase(s, t, i + 1);
    }
  }

  lemma StepAnyCase(s: string, t: string, i: nat)
    requires SameButCase(s, t)
    ensures SearchStep(t, i) == SearchStep(s, i)
  {
    var j := Skip(s, i);
    SkipAnyCase(s, t, i);
    if WithAt(s, j) {
      SpacesAnyCase(s, t, j + 4);
    }
  }

  /** The block of a statement is found whatever the case of its letters. */
  lemma {:induction false} FindOpenAnyCase(s: string, t: string, i: nat)
    requires SameButCase(s, t)
    ensures FindOpen(t, i) == FindOpen(s, i)
    decreases |s| - i
  {
    StepAnyCase(s, t, i);
    if SearchStep(s, i).Continue? {
      FindOpenAnyCase(s, t, SearchStep(s, i).next);
    }
  }

  lemma {:induction false} MatchAnyCase(s: string, t: string, i: nat, depth: int)
    requires SameButCase(s, t)
    ensures MatchFrom(t, i, depth) == MatchFrom(s, i, depth)
    decreases |s| - i
  {
    var j := Skip(s, i);
    SkipAnyCase(s, t, i);
    if j < |s| {
      MatchAnyCase(s, t, j + 1, if s[j] == '(' then depth + 1 else if s[j] == ')' then depth - 1 else depth);
    }
  }

  // ---------- the keyword, character by character ----------

  /** A letter, a digit or an underscore. */
  predicate IsWord(c: char) {
    var n := c as int;
    48 <= n <= 57 || 65 <= n <= 90 || n == 95 || 97 <= n <= 122
  }

  lemma {:induction false} SpacesInLiterals(s: string, i: nat, k: nat)
    requires i <= k <= |s|
    ensures k == SkipSpaces(s, i)
            <==> (forall p | i <= p < k :: s[p] == ' ' || s[p] == '\t' || s[p] == '\n' || s[p] == '\r')
                 && (k < |s| ==> s[k] != ' ' && s[k] != '\t' && s[k] != '\n' && s[k] != '\r')
    decreases |s| - i
  {
    if i < k {
      SpacesInLiterals(s, i + 1, k);
    }
  }

  /** What opens a block: the four letters, each in either case, not part of a longer word, then only
      white space, then the parenthesis. */
  lemma OpensBlockInLiterals(s: string, with: nat, open: nat)
    ensures WithAt(s, with) && SkipSpaces(s, with + 4) == open && open < |s| && s[open] == '('
            <==> with + 4 <= open < |s|
                 && (s[with] == 'W' || s[with] == 'w') && (s[with + 1] == 'I' || s[with + 1] == 'i')
                 && (s[with + 2] == 'T' || s[with + 2] == 't') && (s[with + 3] == 'H' || s[with + 3] == 'h')
                 && (with > 0 ==> !IsWord(s[with - 1])) && !IsWord(s[with + 4])
                 && (forall p | with + 4 <= p < open :: s[p] == ' ' || s[p] == '\t' || s[p] == '\n' || s[p] == '\r')
                 && s[open] == '('
  {
    if with + 4 <= open < |s| {
      SpacesInLiterals(s, with + 4, open);
    }
  }
}
