/** The options of a WITH block (internal/flink/sqlrewrite.go): comment stripping, the option
    pattern, upserting key/value pairs and printing the block again. */
module SqlOptions {
  import opened Wrappers
  import opened SqlScanner

  // ---------- stripping comments ----------

  function Strip(s: string, i: nat): string
    decreases |s| - i
  {
    if i >= |s| then ""
    else if LiteralAt(s, i) then s[i..Skip(s, i)] + Strip(s, Skip(s, i))
    else if TokenAt(s, i) then Strip(s, Skip(s, i))
    else [s[i]] + Strip(s, i + 1)
  }

  method StripComments(s: string) returns (b: string)
    ensures b == Strip(s, 0) == WithoutComments(s, 0, Code)
  {
    StripDropsComments(s, 0);
    b := "";
    var i := 0;
    while i < |s|
      invariant Strip(s, 0) == b + Strip(s, i)
    {
      if s[i] == '\'' {
        var j := SkipQuotesAndComments(s, i);
        b := b + s[i..j];
        i := j;
      } else if (s[i] == '-' && i + 1 < |s| && s[i + 1] == '-') || (s[i] == '/' && i + 1 < |s| && s[i + 1] == '*') {
        i := SkipQuotesAndComments(s, i);
      } else {
        b := b + [s[i]];
        i := i + 1;
      }
    }
  }

  /** The characters that the reference tokenizer does not put into a comment. */
  function WithoutComments(s: string, i: nat, mode: Mode): string
    decreases |s| - i
  {
    if i >= |s| then ""
    else
      var (n, next, code) := Lex(s, i, mode);
      (if code || mode.Literal? || next.Literal? then s[i..i + n] else "") + WithoutComments(s, i + n, next)
  }

  lemma JoinSlices(s: string, i: nat, j: nat, k: nat, rest: string)
    requires i <= j <= k <= |s|
    ensures s[i..j] + (s[j..k] + rest) == s[i..k] + rest
  {
    assert s[i..k] == s[i..j] + s[j..k];
  }

  lemma {:induction false} KeepsLiteral(s: string, i: nat)
    requires i <= |s|
    ensures WithoutComments(s, i, Literal) == s[i..LiteralEnd(s, i)] + WithoutComments(s, LiteralEnd(s, i), Code)
    decreases |s| - i
  {
    if i < |s| {
      var e := LiteralEnd(s, i);
      var rest := WithoutComments(s, e, Code);
      var (n, next, _) := Lex(s, i, Literal);
      assert WithoutComments(s, i, Literal) == s[i..i + n] + WithoutComments(s, i + n, next);
      if next.Literal? {
        KeepsLiteral(s, i + n);
        JoinSlices(s, i, i + n, e, rest);
      }
    }
  }

  lemma {:induction false} DropsLineComment(s: string, i: nat)
    requires i <= |s|
    ensures WithoutComments(s, i, LineComment) == WithoutComments(s, LineCommentEnd(s, i), Code)
    decreases |s| - i
  {
    if i < |s| && s[i] != '\n' {
      DropsLineComment(s, i + 1);
    }
  }

  lemma {:induction false} DropsBlockComment(s: string, i: nat)
    requires i <= |s|
    ensures WithoutComments(s, i, BlockComment) == WithoutComments(s, BlockCommentEnd(s, i), Code)
    decreases |s| - i
  {
    if i + 1 < |s| && !(s[i] == '*' && s[i + 1] == '/') {
      DropsBlockComment(s, i + 1);
    }
  }

  lemma TokenWithoutComments(s: string, i: nat)
    requires TokenAt(s, i)
    ensures WithoutComments(s, i, Code)
            == (if LiteralAt(s, i) then s[i..Skip(s, i)] else "") + WithoutComments(s, Skip(s, i), Code)
  {
    if LiteralAt(s, i) {
      KeepsLiteral(s, i + 1);
      JoinSlices(s, i, i + 1, Skip(s, i), WithoutComments(s, Skip(s, i), Code));
    } else if LineCommentAt(s, i) {
      DropsLineComment(s, i + 2);
    } else {
      DropsBlockComment(s, i + 2);
    }
  }

  /** Unlike the scanning loops, stripping is right on every text. */
  lemma {:induction false} StripDropsComments(s: string, i: nat)
    ensures Strip(s, i) == WithoutComments(s, i, Code)
    decreases |s| - i
  {
    if i < |s| {
      if TokenAt(s, i) {
        TokenWithoutComments(s, i);
        StripDropsComments(s, Skip(s, i));
      } else {
        StripDropsComments(s, i + 1);
      }
    }
  }

  // ---------- the option pattern ----------

  /** \s of the pattern, which is not quite the white space of the scanner. */
  predicate IsPatternSpace(c: char) {
    c == ' ' || c == '\t' || c == '\n' || c == '\U{C}' || c == '\r'
  }

  predicate QuoteFree(s: string) {
    forall i | 0 <= i < |s| :: s[i] != '\''
  }

  /** The text of a value: every quote in it is doubled. */
  predicate WellQuoted(s: string) {
    if s == "" then true
    else if s[0] != '\'' then WellQuoted(s[1..])
    else |s| >= 2 && s[1] == '\'' && WellQuoted(s[2..])
  }

  function NextQuote(s: string, i: nat): (r: nat)
    requires i <= |s|
    ensures i <= r <= |s| && (r < |s| ==> s[r] == '\'') && forall k :: i <= k < r ==> s[k] != '\''
    decreases |s| - i
  {
    if i == |s| || s[i] == '\'' then i else NextQuote(s, i + 1)
  }

  function PatternSpaces(s: string, i: nat): (r: nat)
    requires i <= |s|
    ensures i <= r <= |s| && (r < |s| ==> !IsPatternSpace(s[r])) && forall k :: i <= k < r ==> IsPatternSpace(s[k])
    decreases |s| - i
  {
    if i < |s| && IsPatternSpace(s[i]) then PatternSpaces(s, i + 1) else i
  }

  /** The closing quote that greedy matching with backtracking settles on: it takes doubled quotes
      as part of the value, but gives the last of them back if no closing quote follows. */
  function ValueEnd(s: string, i: nat): (r: int)
    requires i <= |s|
    ensures r == -1 || (i <= r < |s| && s[r] == '\'')
    decreases |s| - i
  {
    if i == |s| then -1
    else if s[i] != '\'' then ValueEnd(s, i + 1)
    else if i + 1 < |s| && s[i + 1] == '\'' then
      if ValueEnd(s, i + 2) >= 0 then ValueEnd(s, i + 2) else i
    else i
  }

  datatype Pair = Pair(key: string, value: string)

  /** The match of 'key' = 'value' that starts at `i`, with the position after it. */
  function MatchAt(s: string, i: nat): (r: Option<(Pair, nat)>)
    requires i < |s|
    ensures r.Some? ==> i < r.value.1 <= |s|
  {
    if s[i] != '\'' then None
    else
      var p1 := NextQuote(s, i + 1);
      if p1 == |s| || p1 == i + 1 then None
      else
        var p2 := PatternSpaces(s, p1 + 1);
        if p2 == |s| || s[p2] != '=' then None
        else
          var p3 := PatternSpaces(s, p2 + 1);
          if p3 == |s| || s[p3] != '\'' then None
          else
            var p4 := ValueEnd(s, p3 + 1);
            if p4 < 0 then None else Some((Pair(s[i + 1..p1], s[p3 + 1..p4]), p4 + 1))
  }

  /** The declarative reading of the pattern: the quotes are at `i`, `p1`, `p3` and `p4`, the equals
      sign is at `p2`. */
  predicate MatchesPattern(s: string, i: nat, p1: nat, p2: nat, p3: nat, p4: nat) {
    && i + 1 < p1 < p2 < p3 < p4 < |s|
    && s[i] == '\'' && s[p1] == '\'' && s[p2] == '=' && s[p3] == '\'' && s[p4] == '\''
    && (forall k | i < k < p1 :: s[k] != '\'')
    && (forall k | p1 < k < p3 && k != p2 ::
          s[k] == ' ' || s[k] == '\t' || s[k] == '\n' || s[k] == '\U{C}' || s[k] == '\r')
    && WellQuoted(s[p3 + 1..p4])
  }

  /** `ValueEnd` is the last quote that ends a well-quoted value. */
  lemma {:induction false} ValueEndIsLongest(s: string, i: nat)
    requires i <= |s|
    ensures ValueEnd(s, i) >= 0 ==> WellQuoted(s[i..ValueEnd(s, i)])
    ensures forall q :: i <= q < |s| && s[q] == '\'' && WellQuoted(s[i..q]) ==> q <= ValueEnd(s, i)
    decreases |s| - i
  {
    if i < |s| {
      if s[i] != '\'' {
        ValueEndIsLongest(s, i + 1);
        forall q | i < q <= |s|
          ensures WellQuoted(s[i..q]) == WellQuoted(s[i + 1..q])
        {
          assert s[i..q][1..] == s[i + 1..q];
        }
      } else if i + 1 < |s| && s[i + 1] == '\'' {
        ValueEndIsLongest(s, i + 2);
        forall q | i + 2 <= q <= |s|
          ensures WellQuoted(s[i..q]) == WellQuoted(s[i + 2..q])
        {
          assert s[i..q][2..] == s[i + 2..q];
        }
        assert !WellQuoted(s[i..i + 1]);
      } else {
        forall q | i < q <= |s|
          ensures !WellQuoted(s[i..q])
        {
          assert q > i + 1 ==> s[i..q][1] == s[i + 1];
        }
      }
    }
  }

  lemma PatternIsDetermined(s: string, i: nat, p1: nat, p2: nat, p3: nat, p4: nat)
    requires MatchesPattern(s, i, p1, p2, p3, p4)
    ensures p1 == NextQuote(s, i + 1) && p2 == PatternSpaces(s, p1 + 1) && p3 == PatternSpaces(s, p2 + 1)
    ensures p4 <= ValueEnd(s, p3 + 1)
  {
    ValueEndIsLongest(s, p3 + 1);
  }

  lemma PatternIsFound(s: string, i: nat, p1: nat, p2: nat, p3: nat, p4: nat)
    requires MatchesPattern(s, i, p1, p2, p3, p4)
    ensures MatchAt(s, i).Some? && p4 < MatchAt(s, i).value.1
  {
    PatternIsDetermined(s, i, p1, p2, p3, p4);
  }

  lemma FoundIsPattern(s: string, i: nat) returns (p1: nat, p2: nat, p3: nat, p4: nat)
    requires i < |s| && MatchAt(s, i).Some?
    ensures MatchesPattern(s, i, p1, p2, p3, p4)
    ensures MatchAt(s, i).value == (Pair(s[i + 1..p1], s[p3 + 1..p4]), p4 + 1)
  {
    p1 := NextQuote(s, i + 1);
    p2 := PatternSpaces(s, p1 + 1);
    p3 := PatternSpaces(s, p2 + 1);
    p4 := ValueEnd(s, p3 + 1);
    ValueEndIsLongest(s, p3 + 1);
  }

  /** A match of the pattern with the longest value, found by the matcher. */
  ghost predicate IsLongestMatch(s: string, i: nat, pair: Pair, end: nat) {
    && (exists p1: nat, p2: nat, p3: nat, p4: nat ::
          MatchesPattern(s, i, p1, p2, p3, p4) && pair == Pair(s[i + 1..p1], s[p3 + 1..p4]) && end == p4 + 1)
    && (forall p1: nat, p2: nat, p3: nat, p4: nat :: MatchesPattern(s, i, p1, p2, p3, p4) ==> p4 < end)
  }

  /** The matcher finds a match exactly when the pattern matches, and of all matches it takes the one
      with the longest value. */
  lemma MatchAtIsLongestMatch(s: string, i: nat)
    requires i < |s|
    ensures match MatchAt(s, i)
            case Some((pair, end)) => IsLongestMatch(s, i, pair, end)
            case None => forall p1: nat, p2: nat, p3: nat, p4: nat :: !MatchesPattern(s, i, p1, p2, p3, p4)
  {
    forall p1: nat, p2: nat, p3: nat, p4: nat | MatchesPattern(s, i, p1, p2, p3, p4)
      ensures MatchAt(s, i).Some? && p4 < MatchAt(s, i).value.1
    {
      PatternIsFound(s, i, p1, p2, p3, p4);
    }
    if MatchAt(s, i).Some? {
      var p1, p2, p3, p4 := FoundIsPattern(s, i);
    }
  }

  /** All matches from left to right, none overlapping. */
  function FindAll(s: string, i: nat): seq<Pair>
    decreases |s| - i
  {
    if i >= |s| then []
    else if MatchAt(s, i).Some? then [MatchAt(s, i).value.0] + FindAll(s, MatchAt(s, i).value.1)
    else FindAll(s, i + 1)
  }

  /** A stretch of text, from `start` up to but not including `end`. */
  datatype Span = Span(start: nat, end: nat)

  /** From `i` on the spans follow one another. */
  predicate InOrder(spans: seq<Span>, i: nat) {
    && (forall k | 0 <= k < |spans| :: i <= spans[k].start < spans[k].end)
    && (forall j, k | 0 <= j < k < |spans| :: spans[j].end <= spans[k].start)
  }

  predicate Within(spans: seq<Span>, at: nat) {
    exists k | 0 <= k < |spans| :: spans[k].start <= at < spans[k].end
  }

  /** Each span is the longest match at its start. */
  ghost predicate AreLongest(s: string, spans: seq<Span>, pairs: seq<Pair>) {
    && |spans| == |pairs|
    && forall k | 0 <= k < |spans| :: IsLongestMatch(s, spans[k].start, pairs[k], spans[k].end)
  }

  ghost predicate PatternAt(s: string, i: nat) {
    exists p1: nat, p2: nat, p3: nat, p4: nat :: MatchesPattern(s, i, p1, p2, p3, p4)
  }

  /** No match starts outside them. */
  ghost predicate NoneMissed(s: string, i: nat, spans: seq<Span>) {
    forall at: nat | i <= at && PatternAt(s, at) :: Within(spans, at)
  }

  ghost predicate FoundAll(s: string, i: nat, spans: seq<Span>, pairs: seq<Pair>) {
    InOrder(spans, i) && AreLongest(s, spans, pairs) && NoneMissed(s, i, spans)
  }

  /** Nothing is missed, on any text: the pairs found are those of successive matches of the pattern,
      each as long as possible, and every position at which the pattern matches lies in one of them. */
  lemma {:induction false} FindAllFindsAll(s: string, i: nat) returns (spans: seq<Span>)
    ensures FoundAll(s, i, spans, FindAll(s, i))
    decreases |s| - i
  {
    if i >= |s| {
      spans := [];
      NothingToFind(s, i);
    } else if MatchAt(s, i).Some? {
      var end := MatchAt(s, i).value.1;
      var rest := FindAllFindsAll(s, end);
      spans := [Span(i, end)] + rest;
      FoundFirst(s, i, rest, FindAll(s, end));
    } else {
      spans := FindAllFindsAll(s, i + 1);
      FoundLater(s, i, spans, FindAll(s, i + 1));
    }
  }

  lemma NothingToFind(s: string, i: nat)
    requires i >= |s|
    ensures FoundAll(s, i, [], [])
  {
  }

  lemma FoundFirst(s: string, i: nat, rest: seq<Span>, pairs: seq<Pair>)
    requires i < |s| && MatchAt(s, i).Some? && FoundAll(s, MatchAt(s, i).value.1, rest, pairs)
    ensures var (pair, end) := MatchAt(s, i).value;
            FoundAll(s, i, [Span(i, end)] + rest, [pair] + pairs)
  {
    var (pair, end) := MatchAt(s, i).value;
    MatchAtIsLongestMatch(s, i);
    FirstLongest(s, i, pair, end, rest, pairs);
    FirstMissesNone(s, i, end, rest);
    FirstInOrder(i, end, rest);
  }

  lemma FirstInOrder(i: nat, end: nat, rest: seq<Span>)
    requires i < end && InOrder(rest, end)
    ensures InOrder([Span(i, end)] + rest, i)
  {
  }

  lemma FoundLater(s: string, i: nat, spans: seq<Span>, pairs: seq<Pair>)
    requires i < |s| && MatchAt(s, i).None? && FoundAll(s, i + 1, spans, pairs)
    ensures FoundAll(s, i, spans, pairs)
  {
    MatchAtIsLongestMatch(s, i);
    assert !PatternAt(s, i);
    forall at: nat | i <= at && PatternAt(s, at)
      ensures Within(spans, at)
    {
      assert at != i;
    }
  }

  lemma FirstLongest(s: string, i: nat, pair: Pair, end: nat, rest: seq<Span>, pairs: seq<Pair>)
    requires IsLongestMatch(s, i, pair, end) && AreLongest(s, rest, pairs)
    ensures AreLongest(s, [Span(i, end)] + rest, [pair] + pairs)
  {
    var spans, all := [Span(i, end)] + rest, [pair] + pairs;
    forall k | 0 <= k < |spans|
      ensures IsLongestMatch(s, spans[k].start, all[k], spans[k].end)
    {
      if k > 0 {
        assert spans[k] == rest[k - 1] && all[k] == pairs[k - 1];
      }
    }
  }

  lemma FirstMissesNone(s: string, i: nat, end: nat, rest: seq<Span>)
    requires i < end && NoneMissed(s, end, rest)
    ensures NoneMissed(s, i, [Span(i, end)] + rest)
  {
    var spans := [Span(i, end)] + rest;
    forall at: nat | i <= at && PatternAt(s, at)
      ensures Within(spans, at)
    {
      if at < end {
        assert spans[0].start <= at < spans[0].end;
      } else {
        assert Within(rest, at);
        var k :| 0 <= k < |rest| && rest[k].start <= at < rest[k].end;
        assert spans[k + 1] == rest[k];
      }
    }
  }

  function ParseBody(body: string): seq<Pair> {
    FindAll(Strip(body, 0), 0)
  }

  /** What the pattern can capture. */
  predicate ValidPair(pair: Pair) {
    pair.key != "" && QuoteFree(pair.key) && WellQuoted(pair.value)
  }

  predicate ValidPairs(pairs: seq<Pair>) {
    forall i | 0 <= i < |pairs| :: ValidPair(pairs[i])
  }

  lemma FoundPairIsValid(s: string, i: nat)
    requires i < |s| && MatchAt(s, i).Some?
    ensures ValidPair(MatchAt(s, i).value.0)
  {
    ValueEndIsLongest(s, PatternSpaces(s, PatternSpaces(s, NextQuote(s, i + 1) + 1) + 1) + 1);
  }

  lemma {:induction false} FoundPairsAreValid(s: string, i: nat)
    ensures ValidPairs(FindAll(s, i))
    decreases |s| - i
  {
    if i < |s| {
      if MatchAt(s, i).Some? {
        FoundPairIsValid(s, i);
        FoundPairsAreValid(s, MatchAt(s, i).value.1);
      } else {
        FoundPairsAreValid(s, i + 1);
      }
    }
  }

  // ---------- upserting ----------

  function LastIndex(pairs: seq<Pair>, key: string): (r: int)
    ensures -1 <= r < |pairs|
    ensures r >= 0 ==> pairs[r].key == key
    ensures forall i :: r < i < |pairs| ==> pairs[i].key != key
  {
    if pairs == [] then -1
    else if pairs[|pairs| - 1].key == key then |pairs| - 1
    else LastIndex(pairs[..|pairs| - 1], key)
  }

  function FirstIndex(pairs: seq<Pair>, key: string): (r: int)
    ensures -1 <= r < |pairs|
    ensures r >= 0 ==> pairs[r].key == key
    ensures forall i :: 0 <= i < (if r >= 0 then r else |pairs|) ==> pairs[i].key != key
  {
    if pairs == [] then -1
    else if pairs[0].key == key then 0
    else
      var r := FirstIndex(pairs[1..], key);
      if r < 0 then -1 else r + 1
  }

  /** The value that `optionValue` reads: that of the first pair with the key, "" if there is none. */
  function ValueOf(pairs: seq<Pair>, key: string): string {
    if FirstIndex(pairs, key) >= 0 then pairs[FirstIndex(pairs, key)].value else ""
  }

  method OptionValue(body: string, key: string) returns (v: string)
    ensures v == ValueOf(ParseBody(body), key)
    ensures var pairs := ParseBody(body);
            if forall p | p in pairs :: p.key != key then v == ""
            else exists i ::
              0 <= i < |pairs| && pairs[i] == Pair(key, v) && forall j | 0 <= j < i :: pairs[j].key != key
  {
    var pairs := FindAll(Strip(body, 0), 0);
    for i := 0 to |pairs|
      invariant forall j :: 0 <= j < i ==> pairs[j].key != key
    {
      if pairs[i].key == key {
        return pairs[i].value;
      }
    }
    return "";
  }

  function UpsertOne(pairs: seq<Pair>, up: Pair): seq<Pair> {
    if LastIndex(pairs, up.key) >= 0 then pairs[LastIndex(pairs, up.key) := up] else pairs + [up]
  }

  function Upsert(pairs: seq<Pair>, ups: seq<Pair>): seq<Pair>
    decreases |ups|
  {
    if ups == [] then pairs else Upsert(UpsertOne(pairs, ups[0]), ups[1..])
  }

  predicate DistinctKeys(pairs: seq<Pair>) {
    forall i, j | 0 <= i < j < |pairs| :: pairs[i].key != pairs[j].key
  }

  /** The old pairs, in order, with the last pair of each upserted key replaced. */
  function Updated(pairs: seq<Pair>, ups: seq<Pair>): seq<Pair> {
    seq(|pairs|, i requires 0 <= i < |pairs| =>
      if i == LastIndex(pairs, pairs[i].key) && FirstIndex(ups, pairs[i].key) >= 0
      then ups[FirstIndex(ups, pairs[i].key)] else pairs[i])
  }

  /** The upserts whose key does not occur yet, in order. */
  function Appended(pairs: seq<Pair>, ups: seq<Pair>): seq<Pair> {
    if ups == [] then []
    else (if LastIndex(pairs, ups[0].key) < 0 then [ups[0]] else []) + Appended(pairs, ups[1..])
  }

  lemma SameKeysSameIndex(a: seq<Pair>, b: seq<Pair>, key: string)
    requires |a| == |b| && forall i :: 0 <= i < |a| ==> a[i].key == b[i].key
    ensures LastIndex(a, key) == LastIndex(b, key)
  {
  }

  lemma {:induction false} AppendedDependsOnKeys(a: seq<Pair>, b: seq<Pair>, ups: seq<Pair>)
    requires forall i :: 0 <= i < |ups| ==> (LastIndex(a, ups[i].key) < 0 <==> LastIndex(b, ups[i].key) < 0)
    ensures Appended(a, ups) == Appended(b, ups)
  {
    if ups != [] {
      AppendedDependsOnKeys(a, b, ups[1..]);
    }
  }

  /** How one upsert moves the last pair of each key. */
  lemma UpsertOneIndex(pairs: seq<Pair>, up: Pair, key: string)
    ensures var pairs' := UpsertOne(pairs, up);
            LastIndex(pairs', key) == (if key != up.key then LastIndex(pairs, key)
                                       else if LastIndex(pairs, key) < 0 then |pairs| else LastIndex(pairs, key))
  {
    if LastIndex(pairs, up.key) >= 0 {
      SameKeysSameIndex(pairs, UpsertOne(pairs, up), key);
    } else {
      assert (pairs + [up])[..|pairs|] == pairs;
    }
  }

  /** What upserting means, for any pairs, duplicates included: the order is kept, the last pair of
      each upserted key gets the new value, and keys that are new are appended in order. */
  lemma {:induction false} UpsertMeaning(pairs: seq<Pair>, ups: seq<Pair>)
    requires DistinctKeys(ups)
    ensures Upsert(pairs, ups) == Updated(pairs, ups) + Appended(pairs, ups)
    decreases |ups|
  {
    if ups == [] {
      assert Updated(pairs, ups) == pairs;
    } else {
      UpsertMeaning(UpsertOne(pairs, ups[0]), ups[1..]);
      AppendedStep(pairs, ups);
      UpdatedStep(pairs, ups);
      Assoc(Updated(pairs, ups), if LastIndex(pairs, ups[0].key) < 0 then [ups[0]] else [], Appended(pairs, ups[1..]));
    }
  }

  lemma AppendedStep(pairs: seq<Pair>, ups: seq<Pair>)
    requires ups != [] && DistinctKeys(ups)
    ensures Appended(UpsertOne(pairs, ups[0]), ups[1..]) == Appended(pairs, ups[1..])
  {
    forall i | 0 <= i < |ups[1..]|
      ensures LastIndex(UpsertOne(pairs, ups[0]), ups[1..][i].key) == LastIndex(pairs, ups[1..][i].key)
    {
      UpsertOneIndex(pairs, ups[0], ups[1..][i].key);
      assert ups[1..][i] == ups[i + 1];
    }
    AppendedDependsOnKeys(UpsertOne(pairs, ups[0]), pairs, ups[1..]);
  }

  lemma UpdatedAt(pairs: seq<Pair>, ups: seq<Pair>, i: nat)
    requires ups != [] && DistinctKeys(ups) && i < |pairs|
    ensures Updated(UpsertOne(pairs, ups[0]), ups[1..])[i] == Updated(pairs, ups)[i]
  {
    var key := pairs[i].key;
    UpsertOneIndex(pairs, ups[0], key);
    FirstOfRest(ups, key);
    if key == ups[0].key {
      NotInRest(ups);
    }
  }

  lemma FirstOfRest(ups: seq<Pair>, key: string)
    requires ups != []
    ensures FirstIndex(ups, key) == if ups[0].key == key then 0
                                    else if FirstIndex(ups[1..], key) < 0 then -1 else FirstIndex(ups[1..], key) + 1
  {
    assert [ups[0]] + ups[1..] == ups;
    FirstOfCons(ups[0], ups[1..], key);
  }

  lemma NotInRest(ups: seq<Pair>)
    requires ups != [] && DistinctKeys(ups)
    ensures FirstIndex(ups[1..], ups[0].key) < 0
  {
    assert forall i :: 0 <= i < |ups[1..]| ==> ups[1..][i] == ups[i + 1];
  }

  lemma UpdatedStep(pairs: seq<Pair>, ups: seq<Pair>)
    requires ups != [] && DistinctKeys(ups)
    ensures Updated(UpsertOne(pairs, ups[0]), ups[1..])
            == Updated(pairs, ups) + (if LastIndex(pairs, ups[0].key) < 0 then [ups[0]] else [])
  {
    forall i | 0 <= i < |pairs|
      ensures Updated(UpsertOne(pairs, ups[0]), ups[1..])[i] == Updated(pairs, ups)[i]
    {
      UpdatedAt(pairs, ups, i);
    }
    if LastIndex(pairs, ups[0].key) < 0 {
      UpsertOneIndex(pairs, ups[0], ups[0].key);
      NotInRest(ups);
    }
  }

  lemma {:induction false} FirstIndexSplit(a: seq<Pair>, b: seq<Pair>, key: string)
    ensures FirstIndex(a + b, key) == if FirstIndex(a, key) >= 0 then FirstIndex(a, key)
                                      else if FirstIndex(b, key) >= 0 then |a| + FirstIndex(b, key) else -1
  {
    if a == [] {
      assert a + b == b;
    } else {
      assert (a + b)[1..] == a[1..] + b;
      FirstIndexSplit(a[1..], b, key);
    }
  }

  lemma {:induction false} AppendedFirst(pairs: seq<Pair>, ups: seq<Pair>, key: string)
    requires LastIndex(pairs, key) < 0
    ensures var i, j := FirstIndex(ups, key), FirstIndex(Appended(pairs, ups), key);
            (i < 0 <==> j < 0) && (i >= 0 ==> Appended(pairs, ups)[j] == ups[i])
  {
    if ups != [] {
      var rest := Appended(pairs, ups[1..]);
      AppendedFirst(pairs, ups[1..], key);
      if LastIndex(pairs, ups[0].key) < 0 {
        FirstOfCons(ups[0], ups[1..], key);
        FirstOfCons(ups[0], rest, key);
        assert [ups[0]] + ups[1..] == ups;
        assert Appended(pairs, ups) == [ups[0]] + rest;
      } else {
        assert Appended(pairs, ups) == rest;
        assert ups[0].key != key;
      }
    }
  }

  lemma FirstOfCons(p: Pair, rest: seq<Pair>, key: string)
    ensures FirstIndex([p] + rest, key) == if p.key == key then 0
                                           else if FirstIndex(rest, key) < 0 then -1 else FirstIndex(rest, key) + 1
  {
    assert ([p] + rest)[1..] == rest;
  }

  lemma UpdatedFirst(pairs: seq<Pair>, ups: seq<Pair>, key: string)
    ensures FirstIndex(Updated(pairs, ups), key) == FirstIndex(pairs, key)
    ensures LastIndex(pairs, key) < 0 <==> FirstIndex(pairs, key) < 0
  {
    assert forall i :: 0 <= i < |pairs| ==> Updated(pairs, ups)[i].key == pairs[i].key;
  }

  /** How the value read for `key` changes from `before` to `after`: keys that are not upserted read
      as before; an upserted key reads its new value exactly when its first pair was also its last
      (or held the value already). */
  predicate ReadsBack(before: seq<Pair>, after: seq<Pair>, ups: seq<Pair>, key: string) {
    var i := FirstIndex(ups, key);
    if i < 0 then ValueOf(after, key) == ValueOf(before, key)
    else ValueOf(after, key) == ups[i].value
         <==> FirstIndex(before, key) == LastIndex(before, key) || ValueOf(before, key) == ups[i].value
  }

  /** A key that is upserted reads back with its new value exactly when its first pair was also its
      last, or had that value already; all other keys read as before. */
  lemma UpsertReadsBack(pairs: seq<Pair>, ups: seq<Pair>, key: string)
    requires DistinctKeys(ups)
    ensures ReadsBack(pairs, Upsert(pairs, ups), ups, key)
  {
    UpsertMeaning(pairs, ups);
    FirstIndexSplit(Updated(pairs, ups), Appended(pairs, ups), key);
    UpdatedFirst(pairs, ups, key);
    if FirstIndex(pairs, key) < 0 {
      AppendedFirst(pairs, ups, key);
    } else {
      assert Upsert(pairs, ups)[FirstIndex(pairs, key)] == Updated(pairs, ups)[FirstIndex(pairs, key)];
    }
  }

  /** Every upserted pair is the last one of its key. */
  predicate Settled(pairs: seq<Pair>, ups: seq<Pair>) {
    forall i | 0 <= i < |ups| :: LastIndex(pairs, ups[i].key) >= 0 && pairs[LastIndex(pairs, ups[i].key)] == ups[i]
  }

  lemma {:induction false} UpsertSettles(pairs: seq<Pair>, ups: seq<Pair>, done: seq<Pair>)
    requires Settled(pairs, done) && DistinctKeys(done + ups)
    ensures Settled(Upsert(pairs, ups), done + ups)
    decreases |ups|
  {
    if ups == [] {
      assert done + ups == done;
    } else {
      var pairs', done' := UpsertOne(pairs, ups[0]), done + [ups[0]];
      assert done' + ups[1..] == done + ups;
      forall i | 0 <= i < |done'|
        ensures LastIndex(pairs', done'[i].key) >= 0 && pairs'[LastIndex(pairs', done'[i].key)] == done'[i]
      {
        assert done'[i] == (done + ups)[i] && ups[0] == (done + ups)[|done|];
        UpsertOneIndex(pairs, ups[0], done'[i].key);
      }
      UpsertSettles(pairs', ups[1..], done');
    }
  }

  lemma {:induction false} SettledIsFixed(pairs: seq<Pair>, ups: seq<Pair>)
    requires Settled(pairs, ups)
    ensures Upsert(pairs, ups) == pairs
    decreases |ups|
  {
    if ups != [] {
      assert UpsertOne(pairs, ups[0]) == pairs;
      SettledIsFixed(pairs, ups[1..]);
    }
  }

  /** Upserting the same values again changes nothing. */
  lemma UpsertIdempotent(pairs: seq<Pair>, ups: seq<Pair>)
    requires DistinctKeys(ups)
    ensures Upsert(Upsert(pairs, ups), ups) == Upsert(pairs, ups)
  {
    assert [] + ups == ups;
    UpsertSettles(pairs, ups, []);
    SettledIsFixed(Upsert(pairs, ups), ups);
  }

  lemma {:induction false} UpsertKeepsValid(pairs: seq<Pair>, ups: seq<Pair>)
    requires ValidPairs(pairs) && ValidPairs(ups)
    ensures ValidPairs(Upsert(pairs, ups))
    decreases |ups|
  {
    if ups != [] {
      UpsertKeepsValid(UpsertOne(pairs, ups[0]), ups[1..]);
    }
  }

  // ---------- upserting, position by position ----------

  predicate Has(pairs: seq<Pair>, key: string) {
    exists i | 0 <= i < |pairs| :: pairs[i].key == key
  }

  /** The last pair with its key. */
  predicate IsLast(pairs: seq<Pair>, i: nat) {
    i < |pairs| && forall j | i < j < |pairs| :: pairs[j].key != pairs[i].key
  }

  /** `tail` holds the upserts with a key that `pairs` has not, and only those, in their order. */
  ghost predicate AreTheNew(pairs: seq<Pair>, ups: seq<Pair>, tail: seq<Pair>) {
    && (forall p :: p in tail <==> p in ups && !Has(pairs, p.key))
    && InOrderOf(ups, tail)
  }

  lemma LastOrNone(pairs: seq<Pair>, key: string)
    ensures LastIndex(pairs, key) < 0 <==> !Has(pairs, key)
  {
  }

  lemma {:induction false} AppendedHasTheNew(pairs: seq<Pair>, ups: seq<Pair>)
    ensures forall p :: p in Appended(pairs, ups) <==> p in ups && !Has(pairs, p.key)
  {
    if ups != [] {
      AppendedHasTheNew(pairs, ups[1..]);
      LastOrNone(pairs, ups[0].key);
      assert ups == [ups[0]] + ups[1..];
    }
  }

  predicate InOrderOf(ups: seq<Pair>, tail: seq<Pair>) {
    forall i, j | 0 <= i < j < |tail| :: FirstIndex(ups, tail[i].key) < FirstIndex(ups, tail[j].key)
  }

  lemma {:induction false} AppendedInOrder(pairs: seq<Pair>, ups: seq<Pair>)
    requires DistinctKeys(ups)
    ensures InOrderOf(ups, Appended(pairs, ups))
  {
    if ups != [] {
      var u, rest := ups[0], ups[1..];
      var tail := Appended(pairs, rest);
      assert ups == [u] + rest;
      AppendedInOrder(pairs, rest);
      AppendedHasTheNew(pairs, rest);
      forall i | 0 <= i < |tail|
        ensures FirstIndex(ups, tail[i].key) == FirstIndex(rest, tail[i].key) + 1 > 0
      {
        assert tail[i] in tail;
        LaterKey(u, rest, tail[i]);
      }
      FirstOfRest(ups, u.key);
    }
  }

  lemma LaterKey(u: Pair, rest: seq<Pair>, p: Pair)
    requires DistinctKeys([u] + rest) && p in rest
    ensures FirstIndex([u] + rest, p.key) == FirstIndex(rest, p.key) + 1 > 0
  {
    var k :| 0 <= k < |rest| && rest[k] == p;
    assert ([u] + rest)[k + 1] == p && ([u] + rest)[0] == u;
    FirstOfCons(u, rest, p.key);
  }

  /** `p` is what becomes of the `i`-th pair: the upsert with its key, if it is the last pair with it. */
  predicate BecomesAt(pairs: seq<Pair>, ups: seq<Pair>, i: nat, p: Pair)
    requires i < |pairs|
  {
    if IsLast(pairs, i) && Has(ups, pairs[i].key) then p in ups && p.key == pairs[i].key else p == pairs[i]
  }

  lemma UpdatedInPlace(pairs: seq<Pair>, ups: seq<Pair>, i: nat)
    requires i < |pairs|
    ensures BecomesAt(pairs, ups, i, Updated(pairs, ups)[i])
  {
    assert IsLast(pairs, i) <==> i == LastIndex(pairs, pairs[i].key);
    assert Has(ups, pairs[i].key) <==> FirstIndex(ups, pairs[i].key) >= 0;
  }

  /** Every old pair keeps its place; the last pair of each upserted key is the upsert now, and every
      other old pair is as it was; behind them come the upserts that are new, in order. */
  lemma UpsertInPlace(pairs: seq<Pair>, ups: seq<Pair>)
    requires DistinctKeys(ups)
    ensures |pairs| <= |Upsert(pairs, ups)|
    ensures forall i: nat | i < |pairs| :: BecomesAt(pairs, ups, i, Upsert(pairs, ups)[i])
    ensures AreTheNew(pairs, ups, Upsert(pairs, ups)[|pairs|..])
  {
    UpsertMeaning(pairs, ups);
    AppendedHasTheNew(pairs, ups);
    AppendedInOrder(pairs, ups);
    assert Upsert(pairs, ups)[|pairs|..] == Appended(pairs, ups);
    forall i: nat | i < |pairs|
      ensures BecomesAt(pairs, ups, i, Upsert(pairs, ups)[i])
    {
      UpdatedInPlace(pairs, ups, i);
    }
  }

  // ---------- comments are not options ----------

  /** What is parsed is the text without its comments, as the reference tokenizer sees them. */
  lemma ParsedWithoutComments(body: string)
    ensures ParseBody(body) == FindAll(WithoutComments(body, 0, Code), 0)
  {
    StripDropsComments(body, 0);
  }

  lemma SliceMoved(s: string, t: string, a: nat, d: int, i: nat, e: nat)
    requires Moved(s, t, a, d) && a <= i <= e <= |s|
    ensures i + d >= 0 && e + d <= |t| && t[i + d..e + d] == s[i..e]
  {
  }

  lemma TokenMoved(s: string, t: string, a: nat, d: int, i: nat)
    requires Moved(s, t, a, d) && a <= i
    ensures i + d >= 0 && (LiteralAt(t, i + d) <==> LiteralAt(s, i)) && (TokenAt(t, i + d) <==> TokenAt(s, i))
  {
  }

  /** The part of the text that one step of stripping keeps. */
  function KeptAt(s: string, i: nat): string
    requires i < |s|
  {
    if LiteralAt(s, i) then s[i..Skip(s, i)] else if TokenAt(s, i) then "" else [s[i]]
  }

  function AfterStep(s: string, i: nat): nat {
    if TokenAt(s, i) then Skip(s, i) else i + 1
  }

  lemma StripStep(s: string, i: nat)
    requires i < |s|
    ensures Strip(s, i) == KeptAt(s, i) + Strip(s, AfterStep(s, i))
  {
  }

  lemma KeptMoved(s: string, t: string, a: nat, d: int, i: nat)
    requires Moved(s, t, a, d) && a <= i < |s|
    ensures 0 <= i + d < |t| && KeptAt(t, i + d) == KeptAt(s, i) && AfterStep(t, i + d) == AfterStep(s, i) + d
  {
    TokenMoved(s, t, a, d, i);
    SkipMoved(s, t, a, d, i);
    if LiteralAt(s, i) {
      SliceMoved(s, t, a, d, i, Skip(s, i));
    }
  }

  lemma {:induction false} StripMoved(s: string, t: string, a: nat, d: int, i: nat)
    requires Moved(s, t, a, d) && a <= i
    ensures i + d >= 0 && Strip(t, i + d) == Strip(s, i)
    decreases |s| - i
  {
    if i < |s| {
      KeptMoved(s, t, a, d, i);
      StripStep(s, i);
      StripStep(t, i + d);
      StripMoved(s, t, a, d, AfterStep(s, i));
    }
  }

  lemma {:induction false} LineEndsAt(s: string, i: nat, n: nat)
    requires i <= n < |s| && s[n] == '\n' && forall k | i <= k < n :: s[k] != '\n'
    ensures LineCommentEnd(s, i) == n
    decreases n - i
  {
    if i < n {
      LineEndsAt(s, i + 1, n);
    }
  }

  /** A line that is commented out counts as empty, whatever option it holds. */
  lemma CommentedLineIsIgnored(comment: string, rest: string)
    requires forall k | 0 <= k < |comment| :: comment[k] != '\n'
    ensures ParseBody("--" + comment + "\n" + rest) == ParseBody("\n" + rest)
  {
    var line, end := "--" + comment, "\n" + rest;
    var s := line + end;
    assert s == "--" + comment + "\n" + rest;
    var n := |line|;
    assert s[0] == '-' && s[1] == '-' && s[n] == '\n';
    assert forall k | 2 <= k < n :: s[k] == comment[k - 2];
    LineEndsAt(s, 2, n);
    assert Skip(s, 0) == n;
    assert Moved(s, end, n, -n);
    StripMoved(s, end, n, -n, n);
  }
}
