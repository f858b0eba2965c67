/** Printing a WITH block and reading it back (upsertWithOptions and detectIndent in
    internal/flink/sqlrewrite.go). */
module SqlPrinter {
  import opened Wrappers
  import opened SqlScanner
  import opened SqlOptions

  // ---------- indentation ----------

  predicate IsUnicodeSpace(c: char) {
    var n := c as int;
    9 <= n <= 13 || n == 32 || n == 0x85 || n == 0xA0 || n == 0x1680 || 0x2000 <= n <= 0x200A
    || n == 0x2028 || n == 0x2029 || n == 0x202F || n == 0x205F || n == 0x3000
  }

  predicate IsBlank(c: char) {
    c == ' ' || c == '\t'
  }

  predicate AllSpace(s: string) {
    forall i | 0 <= i < |s| :: IsUnicodeSpace(s[i])
  }

  predicate AllBlank(s: string) {
    forall i | 0 <= i < |s| :: IsBlank(s[i])
  }

  function LineEnd(s: string, i: nat): (r: nat)
    requires i <= |s|
    ensures i <= r <= |s| && (r < |s| ==> s[r] == '\n') && forall k :: i <= k < r ==> s[k] != '\n'
    decreases |s| - i
  {
    if i == |s| || s[i] == '\n' then i else LineEnd(s, i + 1)
  }

  function BlankEnd(s: string, i: nat): (r: nat)
    requires i <= |s|
    ensures i <= r <= |s| && (r < |s| ==> !IsBlank(s[r])) && forall k :: i <= k < r ==> IsBlank(s[k])
    decreases |s| - i
  {
    if i < |s| && IsBlank(s[i]) then BlankEnd(s, i + 1) else i
  }

  /** The blanks in front of the first line that is not only white space; two spaces if there is no
      such line. */
  function Indent(s: string, i: nat): (r: string)
    requires i <= |s|
    ensures AllBlank(r)
    decreases |s| - i
  {
    var e := LineEnd(s, i);
    if !AllSpace(s[i..e]) then var line := s[i..e]; line[..BlankEnd(line, 0)]
    else if e < |s| then Indent(s, e + 1)
    else "  "
  }

  /** The white space of ASCII. */
  predicate IsAsciiSpace(c: char) {
    c == ' ' || c == '\t' || c == '\n' || c == '\r' || c == '\U{B}' || c == '\U{C}'
  }

  /** [a, e) is the first line of the text from `i` on that holds anything but white space. */
  predicate IsFirstLine(s: string, i: nat, a: nat, e: nat) {
    && i <= a < e <= |s|
    && (a == i || s[a - 1] == '\n') && (e == |s| || s[e] == '\n')
    && (forall k | a <= k < e :: s[k] != '\n')
    && (exists k | a <= k < e :: !IsUnicodeSpace(s[k]))
    && (forall k | i <= k < a :: IsUnicodeSpace(s[k]))
  }

  /** The blanks and tabs that a line begins with. */
  predicate IsMargin(s: string, a: nat, e: nat, r: string) {
    && a + |r| < e <= |s| && s[a..a + |r|] == r
    && (forall k | a <= k < a + |r| :: s[k] == ' ' || s[k] == '\t')
    && s[a + |r|] != ' ' && s[a + |r|] != '\t'
  }

  lemma AsciiSpaces()
    ensures forall c: char | c as int < 128 :: IsUnicodeSpace(c) <==> IsAsciiSpace(c)
  {
  }

  lemma MarginOf(s: string, a: nat, e: nat)
    requires a <= e <= |s| && !AllSpace(s[a..e])
    ensures var line := s[a..e]; IsMargin(s, a, e, line[..BlankEnd(line, 0)])
    ensures exists k | a <= k < e :: !IsUnicodeSpace(s[k])
  {
    var line := s[a..e];
    var i :| 0 <= i < |line| && !IsUnicodeSpace(line[i]);
    assert s[a + i] == line[i];
    assert BlankEnd(line, 0) <= i;
    assert forall k | a <= k < e :: s[k] == line[k - a];
  }

  predicate SpaceUpTo(s: string, i: nat, k: nat)
    requires k <= |s|
  {
    forall x | i <= x < k :: IsUnicodeSpace(s[x])
  }

  lemma BlankLine(s: string, i: nat, e: nat)
    requires i <= e <= |s| && AllSpace(s[i..e]) && (e < |s| ==> s[e] == '\n')
    ensures SpaceUpTo(s, i, e) && (e < |s| ==> SpaceUpTo(s, i, e + 1))
  {
    assert forall k | i <= k < e :: s[k] == s[i..e][k - i];
  }

  lemma LaterLine(s: string, i: nat, n: nat, a: nat, e: nat)
    requires i < n <= |s| && SpaceUpTo(s, i, n) && s[n - 1] == '\n' && IsFirstLine(s, n, a, e)
    ensures IsFirstLine(s, i, a, e)
  {
  }

  /** The margin of the first line that is not only white space; two spaces if there is no such line. */
  lemma {:induction false} IndentIsMargin(s: string, i: nat) returns (a: nat, e: nat)
    requires i <= |s|
    ensures if SpaceUpTo(s, i, |s|) then Indent(s, i) == "  "
            else IsFirstLine(s, i, a, e) && IsMargin(s, a, e, Indent(s, i))
    decreases |s| - i
  {
    a, e := i, LineEnd(s, i);
    if AllSpace(s[i..e]) {
      BlankLine(s, i, e);
      if e < |s| {
        var n := e + 1;
        a, e := IndentIsMargin(s, n);
        if !SpaceUpTo(s, n, |s|) {
          LaterLine(s, i, n, a, e);
        }
      }
    } else {
      MarginOf(s, i, e);
    }
  }

  method DetectIndent(body: string) returns (r: string)
    ensures r == Indent(body, 0)
  {
    var i := 0;
    while true
      invariant i <= |body| && Indent(body, 0) == Indent(body, i)
      decreases |body| - i
    {
      var e := LineEnd(body, i);
      var line := body[i..e];
      if !AllSpace(line) {
        return line[..BlankEnd(line, 0)];
      }
      if e == |body| {
        return "  ";
      }
      i := e + 1;
    }
  }

  // ---------- printing ----------

  function Entry(indent: string, pair: Pair, last: bool): string {
    indent + "'" + pair.key + "' = '" + pair.value + "'" + (if last then "" else ",") + "\n"
  }

  function Entries(indent: string, pairs: seq<Pair>): string {
    if pairs == [] then "" else Entry(indent, pairs[0], |pairs| == 1) + Entries(indent, pairs[1..])
  }

  function Print(indent: string, pairs: seq<Pair>): string {
    "\n" + Entries(indent, pairs)
  }

  lemma LastComma(text: string, line: string, rest: string)
    requires text != ""
    ensures (line + text)[..|line + text| - 1] + rest == line + (text[..|text| - 1] + rest)
  {
  }

  lemma EntriesOfOne(indent: string, p: Pair)
    ensures Entries(indent, [p]) == Entry(indent, p, true)
  {
    assert [p][1..] == [];
  }

  lemma EntriesOfCons(indent: string, p: Pair, rest: seq<Pair>)
    requires rest != []
    ensures Entries(indent, [p] + rest) == Entry(indent, p, false) + Entries(indent, rest)
  {
    assert ([p] + rest)[1..] == rest;
  }

  lemma LineForComma(indent: string, p: Pair)
    ensures var last := Entry(indent, p, true);
            last != "" && Entry(indent, p, false) == last[..|last| - 1] + ",\n"
  {
    var text := indent + "'" + p.key + "' = '" + p.value + "'";
    assert Entry(indent, p, true) == text + "" + "\n" == text + "\n";
    assert (text + "\n")[..|text|] == text;
    assert text + "," + "\n" == text + ",\n";
  }

  lemma {:induction false} EntriesGrow(indent: string, pairs: seq<Pair>, p: Pair)
    requires pairs != []
    ensures var text := Entries(indent, pairs);
            && text != ""
            && Entries(indent, pairs + [p]) == text[..|text| - 1] + (",\n" + Entry(indent, p, true))
  {
    var first, tail := pairs[0], pairs[1..];
    assert pairs + [p] == [first] + (tail + [p]);
    EntriesOfCons(indent, first, tail + [p]);
    LineForComma(indent, first);
    if tail == [] {
      assert pairs == [first] && tail + [p] == [p];
      EntriesOfOne(indent, first);
      EntriesOfOne(indent, p);
      Assoc(Entry(indent, first, true)[..|Entry(indent, first, true)| - 1], ",\n", Entry(indent, p, true));
    } else {
      assert pairs == [first] + tail;
      EntriesOfCons(indent, first, tail);
      EntriesGrow(indent, tail, p);
      LastComma(Entries(indent, tail), Entry(indent, first, false), ",\n" + Entry(indent, p, true));
    }
  }

  /** The printed text, pair by pair: it begins with a line break, every pair is on a line of its own
      behind the indent, and all but the last one are followed by a comma. */
  lemma PrintedLines(indent: string, pairs: seq<Pair>, p: Pair)
    ensures Print(indent, []) == "\n"
    ensures Print(indent, [p]) == "\n" + indent + "'" + p.key + "' = '" + p.value + "'\n"
    ensures pairs != [] ==>
              var text := Print(indent, pairs);
              Print(indent, pairs + [p])
              == text[..|text| - 1] + (",\n" + (indent + "'" + p.key + "' = '" + p.value + "'\n"))
  {
    var line := indent + "'" + p.key + "' = '" + p.value + "'\n";
    assert Entry(indent, p, true) == line;
    assert [p][1..] == [] && Entries(indent, [p]) == line;
    assert "\n" + line == "\n" + indent + "'" + p.key + "' = '" + p.value + "'\n";
    if pairs != [] {
      EntriesGrow(indent, pairs, p);
      LastComma(Entries(indent, pairs), "\n", ",\n" + line);
    }
  }

  function UpsertBody(body: string, ups: seq<Pair>): string {
    Print(Indent(body, 0), Upsert(ParseBody(body), ups))
  }

  /** `seen` maps each key to the position of its last pair. */
  predicate SeenOk(seen: map<string, nat>, pairs: seq<Pair>) {
    && (forall k | k in seen :: seen[k] == LastIndex(pairs, k))
    && (forall i | 0 <= i < |pairs| :: pairs[i].key in seen)
  }

  lemma SeenAfterAppend(seen: map<string, nat>, pairs: seq<Pair>, pair: Pair)
    requires SeenOk(seen, pairs)
    ensures SeenOk(seen[pair.key := |pairs|], pairs + [pair])
  {
    assert (pairs + [pair])[..|pairs|] == pairs;
  }

  method CollectPairs(found: seq<Pair>) returns (pairs: seq<Pair>, seen: map<string, nat>)
    ensures pairs == found && SeenOk(seen, pairs)
  {
    pairs := [];
    seen := map[];
    for i := 0 to |found|
      invariant pairs == found[..i] && SeenOk(seen, pairs)
    {
      SeenAfterAppend(seen, pairs, found[i]);
      seen := seen[found[i].key := |pairs|];
      pairs := pairs + [found[i]];
    }
  }

  method UpsertPairs(old_: seq<Pair>, seen_: map<string, nat>, upserts: seq<Pair>) returns (pairs: seq<Pair>)
    requires SeenOk(seen_, old_)
    ensures pairs == Upsert(old_, upserts)
  {
    pairs := old_;
    var seen: map<string, nat> := seen_;
    for i := 0 to |upserts|
      invariant Upsert(pairs, upserts[i..]) == Upsert(old_, upserts)
      invariant SeenOk(seen, pairs)
    {
      var up := upserts[i];
      assert upserts[i..][0] == up && upserts[i..][1..] == upserts[i + 1..];
      if up.key in seen {
        SameKeysSameIndices(pairs, pairs[seen[up.key] := up]);
        pairs := pairs[seen[up.key] := up];
      } else {
        SeenAfterAppend(seen, pairs, up);
        seen := seen[up.key := |pairs|];
        pairs := pairs + [up];
      }
    }
  }

  method Render(indent: string, pairs: seq<Pair>) returns (r: string)
    ensures r == Print(indent, pairs)
  {
    r := "\n";
    for i := 0 to |pairs|
      invariant r + Entries(indent, pairs[i..]) == Print(indent, pairs)
    {
      var entry := Entry(indent, pairs[i], i == |pairs| - 1);
      assert pairs[i..][1..] == pairs[i + 1..];
      assert r + (entry + Entries(indent, pairs[i + 1..])) == (r + entry) + Entries(indent, pairs[i + 1..]);
      r := r + entry;
    }
  }

  method UpsertWithOptions(body: string, upserts: seq<Pair>) returns (r: string)
    ensures r == UpsertBody(body, upserts)
  {
    var indent := DetectIndent(body);
    var stripped := StripComments(body);
    var pairs, seen := CollectPairs(FindAll(stripped, 0));
    pairs := UpsertPairs(pairs, seen, upserts);
    r := Render(indent, pairs);
  }

  lemma SameKeysSameIndices(a: seq<Pair>, b: seq<Pair>)
    requires |a| == |b| && forall i :: 0 <= i < |a| ==> a[i].key == b[i].key
    ensures forall key :: LastIndex(a, key) == LastIndex(b, key)
  {
    forall key
      ensures LastIndex(a, key) == LastIndex(b, key)
    {
      SameKeysSameIndex(a, b, key);
    }
  }

  // ---------- one printed entry inside a text ----------

  /** The text from `p` to `e` is an entry: blanks, the key between the quotes at `q0` and `q1`, the
      value between the quotes at `q2` and `q3`, and the end of the line. */
  predicate EntryAt(s: string, p: nat, q0: nat, q1: nat, q2: nat, q3: nat, e: nat) {
    && p <= q0 < q1 && q1 + 4 == q2 < q3 < e <= |s|
    && (forall k | p <= k < q0 :: IsBlank(s[k]))
    && s[q0] == '\'' && s[q1] == '\'' && s[q2] == '\'' && s[q3] == '\''
    && s[q1 + 1] == ' ' && s[q1 + 2] == '=' && s[q1 + 3] == ' '
    && (forall k | q0 < k < q1 :: s[k] != '\'') && q0 + 1 < q1
    && WellQuoted(s[q2 + 1..q3])
    && ((e == q3 + 2 && s[q3 + 1] == '\n') || (e == q3 + 3 && s[q3 + 1] == ',' && s[q3 + 2] == '\n'))
  }

  lemma Slice(s: string, p: nat, text: string, i: nat, j: nat)
    requires p + |text| <= |s| && s[p..p + |text|] == text && i <= j <= |text|
    ensures s[p + i..p + j] == text[i..j]
    ensures i < |text| ==> s[p + i] == text[i]
  {
    assert forall k :: 0 <= k < |text| ==> s[p + k] == s[p..p + |text|][k] == text[k];
  }

  /** The characters of one entry: `n`, `m`, `m + 4` and `v` are the quotes. */
  predicate EntryText(text: string, n: nat, m: nat, v: nat) {
    && n + 1 < m && m + 4 < v && v + 2 <= |text| <= v + 3
    && text[n] == '\'' && text[m] == '\'' && text[m + 4] == '\'' && text[v] == '\''
    && text[m + 1] == ' ' && text[m + 2] == '=' && text[m + 3] == ' '
    && AllBlank(text[..n]) && QuoteFree(text[n + 1..m]) && WellQuoted(text[m + 5..v])
    && (if |text| == v + 2 then text[v + 1] == '\n' else text[v + 1] == ',' && text[v + 2] == '\n')
  }

  lemma EntryTextAt(s: string, p: nat, text: string, n: nat, m: nat, v: nat)
    requires p + |text| <= |s| && s[p..p + |text|] == text && EntryText(text, n, m, v)
    ensures EntryAt(s, p, p + n, p + m, p + m + 4, p + v, p + |text|)
    ensures s[p + n + 1..p + m] == text[n + 1..m] && s[p + m + 5..p + v] == text[m + 5..v]
  {
    assert forall k :: p <= k < p + |text| ==> s[k] == s[p..p + |text|][k - p] == text[k - p];
    assert forall k :: 0 <= k < n ==> text[k] == text[..n][k];
    assert forall k :: n < k < m ==> text[k] == text[n + 1..m][k - n - 1];
    assert s[p + n + 1..p + m] == text[n + 1..m];
    assert s[p + m + 5..p + v] == text[m + 5..v];
  }

  lemma PlacedEntry(s: string, p: nat, text: string, pair: Pair, n: nat, m: nat, v: nat)
    returns (e: nat, q0: nat, q1: nat, q2: nat, q3: nat)
    requires p + |text| <= |s| && s[p..p + |text|] == text && EntryText(text, n, m, v)
    requires text[n + 1..m] == pair.key && text[m + 5..v] == pair.value
    ensures e == p + |text| && EntryAt(s, p, q0, q1, q2, q3, e)
    ensures s[q0 + 1..q1] == pair.key && s[q2 + 1..q3] == pair.value
  {
    EntryTextAt(s, p, text, n, m, v);
    e, q0, q1, q2, q3 := p + |text|, p + n, p + m, p + m + 4, p + v;
  }

  lemma EntryShape(s: string, p: nat, indent: string, pair: Pair, last: bool)
    returns (q0: nat, q1: nat, q2: nat, q3: nat, e: nat)
    requires AllBlank(indent) && ValidPair(pair)
    requires p + |Entry(indent, pair, last)| <= |s|
             && s[p..p + |Entry(indent, pair, last)|] == Entry(indent, pair, last)
    ensures e == p + |Entry(indent, pair, last)| && EntryAt(s, p, q0, q1, q2, q3, e)
    ensures s[q0 + 1..q1] == pair.key && s[q2 + 1..q3] == pair.value
  {
    var n, m := |indent|, |indent| + 1 + |pair.key|;
    var v := m + 5 + |pair.value|;
    EntryTextOf(indent, pair, last);
    e, q0, q1, q2, q3 := PlacedEntry(s, p, Entry(indent, pair, last), pair, n, m, v);
  }

  lemma EntryTextOf(indent: string, pair: Pair, last: bool)
    requires AllBlank(indent) && ValidPair(pair)
    ensures var text, n, m := Entry(indent, pair, last), |indent|, |indent| + 1 + |pair.key|;
            var v := m + 5 + |pair.value|;
            EntryText(text, n, m, v) && text[n + 1..m] == pair.key && text[m + 5..v] == pair.value
  {
    EntryChars(indent, pair, last);
  }

  lemma EntryChars(indent: string, pair: Pair, last: bool)
    ensures var text, n, m := Entry(indent, pair, last), |indent|, |indent| + 1 + |pair.key|;
            var v := m + 5 + |pair.value|;
            && |text| == v + (if last then 2 else 3)
            && text[..n] == indent && text[n] == '\''
            && text[n + 1..m] == pair.key
            && text[m] == '\'' && text[m + 1] == ' ' && text[m + 2] == '=' && text[m + 3] == ' ' && text[m + 4] == '\''
            && text[m + 5..v] == pair.value
            && text[v] == '\''
            && (if last then text[v + 1] == '\n' else text[v + 1] == ',' && text[v + 2] == '\n')
  {
  }

  // ---------- scanning, stripping and parsing one entry ----------

  lemma {:induction false} QuoteFreeIsWellQuoted(s: string)
    requires QuoteFree(s)
    ensures WellQuoted(s)
  {
    if s != "" {
      QuoteFreeIsWellQuoted(s[1..]);
    }
  }

  /** A well-quoted text followed by a lone quote is one literal, and one value. */
  lemma {:induction false} LiteralOver(s: string, i: nat, e: nat)
    requires i <= e < |s| && s[e] == '\'' && (e + 1 < |s| ==> s[e + 1] != '\'') && WellQuoted(s[i..e])
    ensures LiteralEnd(s, i) == e + 1 && ValueEnd(s, i) == e
    decreases e - i
  {
    if i < e {
      assert s[i..e][0] == s[i];
      if s[i] != '\'' {
        assert s[i..e][1..] == s[i + 1..e];
        LiteralOver(s, i + 1, e);
      } else {
        assert s[i..e][1] == s[i + 1] && s[i..e][2..] == s[i + 2..e];
        LiteralOver(s, i + 2, e);
      }
    }
  }

  lemma EntryLiterals(s: string, p: nat, q0: nat, q1: nat, q2: nat, q3: nat, e: nat)
    requires EntryAt(s, p, q0, q1, q2, q3, e)
    ensures Skip(s, q0) == q1 + 1 && Skip(s, q2) == q3 + 1 && ValueEnd(s, q2 + 1) == q3
  {
    QuoteFreeIsWellQuoted(s[q0 + 1..q1]);
    LiteralOver(s, q0 + 1, q1);
    LiteralOver(s, q2 + 1, q3);
  }

  /** Neither a token nor a parenthesis. */
  predicate Inert(c: char) {
    IsBlank(c) || c == '=' || c == ',' || c == '\n'
  }

  lemma {:induction false} MatchOverInert(s: string, i: nat, k: nat, depth: int)
    requires i <= k <= |s| && forall x :: i <= x < k ==> Inert(s[x])
    ensures MatchFrom(s, i, depth) == MatchFrom(s, k, depth)
    decreases k - i
  {
    if i < k {
      MatchOverInert(s, i + 1, k, depth);
    }
  }

  lemma MatchOverLiteral(s: string, i: nat, e: nat, depth: int)
    requires LiteralAt(s, i) && Skip(s, i) == e < |s| && Inert(s[e])
    ensures MatchFrom(s, i, depth) == MatchFrom(s, e + 1, depth)
  {
  }

  lemma MatchOverKey(s: string, p: nat, q0: nat, q1: nat, q2: nat, q3: nat, e: nat, depth: int)
    requires EntryAt(s, p, q0, q1, q2, q3, e)
    ensures MatchFrom(s, p, depth) == MatchFrom(s, q2, depth)
  {
    EntryLiterals(s, p, q0, q1, q2, q3, e);
    MatchOverInert(s, p, q0, depth);
    MatchOverLiteral(s, q0, q1 + 1, depth);
    MatchOverInert(s, q1 + 2, q2, depth);
  }

  lemma MatchOverValue(s: string, p: nat, q0: nat, q1: nat, q2: nat, q3: nat, e: nat, depth: int)
    requires EntryAt(s, p, q0, q1, q2, q3, e)
    ensures MatchFrom(s, q2, depth) == MatchFrom(s, e, depth)
  {
    EntryLiterals(s, p, q0, q1, q2, q3, e);
    MatchOverLiteral(s, q2, q3 + 1, depth);
    MatchOverInert(s, q3 + 2, e, depth);
  }

  /** Scanning for the closing parenthesis passes over an entry. */
  lemma MatchOverEntry(s: string, p: nat, q0: nat, q1: nat, q2: nat, q3: nat, e: nat, depth: int)
    requires EntryAt(s, p, q0, q1, q2, q3, e)
    ensures MatchFrom(s, p, depth) == MatchFrom(s, e, depth)
  {
    MatchOverKey(s, p, q0, q1, q2, q3, e, depth);
    MatchOverValue(s, p, q0, q1, q2, q3, e, depth);
  }

  lemma {:induction false} AdjacencyOverInert(s: string, i: nat, k: nat)
    requires i <= k <= |s| && forall x :: i <= x < k ==> Inert(s[x])
    ensures NoAdjacentTokens(s, i) == NoAdjacentTokens(s, k)
    decreases k - i
  {
    if i < k {
      AdjacencyOverInert(s, i + 1, k);
    }
  }

  /** In an entry no two literals are adjacent. */
  lemma NoAdjacencyInEntry(s: string, p: nat, q0: nat, q1: nat, q2: nat, q3: nat, e: nat)
    requires EntryAt(s, p, q0, q1, q2, q3, e)
    ensures NoAdjacentTokens(s, p) == NoAdjacentTokens(s, e)
  {
    EntryLiterals(s, p, q0, q1, q2, q3, e);
    AdjacencyOverInert(s, p, q0);
    AdjacencyOverInert(s, q1 + 1, q2);
    AdjacencyOverInert(s, q3 + 1, e);
  }

  /** No comment from `i` on. */
  predicate NoComments(s: string, i: nat)
    decreases |s| - i
  {
    if i >= |s| then true
    else if LiteralAt(s, i) then NoComments(s, Skip(s, i))
    else !TokenAt(s, i) && NoComments(s, i + 1)
  }

  lemma {:induction false} NothingToStrip(s: string, i: nat)
    requires i <= |s| && NoComments(s, i)
    ensures Strip(s, i) == s[i..]
    decreases |s| - i
  {
    if i < |s| {
      var k := if LiteralAt(s, i) then Skip(s, i) else i + 1;
      NothingToStrip(s, k);
      assert s[i..] == s[i..k] + s[k..];
    }
  }

  lemma {:induction false} CommentsOverInert(s: string, i: nat, k: nat)
    requires i <= k <= |s| && forall x :: i <= x < k ==> Inert(s[x])
    ensures NoComments(s, i) == NoComments(s, k)
    decreases k - i
  {
    if i < k {
      CommentsOverInert(s, i + 1, k);
    }
  }

  lemma NoCommentsInEntry(s: string, p: nat, q0: nat, q1: nat, q2: nat, q3: nat, e: nat)
    requires EntryAt(s, p, q0, q1, q2, q3, e)
    ensures NoComments(s, p) == NoComments(s, e)
  {
    EntryLiterals(s, p, q0, q1, q2, q3, e);
    CommentsOverInert(s, p, q0);
    CommentsOverInert(s, q1 + 1, q2);
    CommentsOverInert(s, q3 + 1, e);
  }

  lemma {:induction false} FindOverInert(s: string, i: nat, k: nat)
    requires i <= k <= |s| && forall x :: i <= x < k ==> Inert(s[x])
    ensures FindAll(s, i) == FindAll(s, k)
    decreases k - i
  {
    if i < k {
      FindOverInert(s, i + 1, k);
    }
  }

  lemma MatchOfEntry(s: string, p: nat, q0: nat, q1: nat, q2: nat, q3: nat, e: nat)
    requires EntryAt(s, p, q0, q1, q2, q3, e)
    ensures MatchAt(s, q0) == Some((Pair(s[q0 + 1..q1], s[q2 + 1..q3]), q3 + 1))
  {
    EntryLiterals(s, p, q0, q1, q2, q3, e);
    assert NextQuote(s, q0 + 1) == q1;
    assert PatternSpaces(s, q1 + 1) == q1 + 2;
    assert PatternSpaces(s, q1 + 3) == q2;
  }

  lemma FindOverEntry(s: string, p: nat, q0: nat, q1: nat, q2: nat, q3: nat, e: nat)
    requires EntryAt(s, p, q0, q1, q2, q3, e)
    ensures FindAll(s, p) == [Pair(s[q0 + 1..q1], s[q2 + 1..q3])] + FindAll(s, e)
  {
    FindOverInert(s, p, q0);
    MatchOfEntry(s, p, q0, q1, q2, q3, e);
    FindOverInert(s, q3 + 1, e);
  }

  // ---------- a printed block inside a text ----------

  /** The printed entries occur in `s` at `p`. */
  predicate EntriesAt(s: string, p: nat, indent: string, pairs: seq<Pair>) {
    && AllBlank(indent) && ValidPairs(pairs)
    && p + |Entries(indent, pairs)| <= |s|
    && s[p..p + |Entries(indent, pairs)|] == Entries(indent, pairs)
  }

  lemma FirstEntry(s: string, p: nat, indent: string, pairs: seq<Pair>)
    returns (q0: nat, q1: nat, q2: nat, q3: nat, e: nat)
    requires EntriesAt(s, p, indent, pairs) && pairs != []
    ensures EntryAt(s, p, q0, q1, q2, q3, e) && s[q0 + 1..q1] == pairs[0].key && s[q2 + 1..q3] == pairs[0].value
    ensures EntriesAt(s, e, indent, pairs[1..])
    ensures e + |Entries(indent, pairs[1..])| == p + |Entries(indent, pairs)|
  {
    var entry, rest := Entry(indent, pairs[0], |pairs| == 1), Entries(indent, pairs[1..]);
    Slice(s, p, entry + rest, 0, |entry|);
    Slice(s, p, entry + rest, |entry|, |entry| + |rest|);
    q0, q1, q2, q3, e := EntryShape(s, p, indent, pairs[0], |pairs| == 1);
  }

  /** Printed entries are scanned and parsed one by one. */
  lemma {:induction false} MatchOverEntries(s: string, p: nat, indent: string, pairs: seq<Pair>, depth: int)
    requires EntriesAt(s, p, indent, pairs)
    ensures MatchFrom(s, p, depth) == MatchFrom(s, p + |Entries(indent, pairs)|, depth)
    decreases |pairs|
  {
    if pairs != [] {
      var q0, q1, q2, q3, m := FirstEntry(s, p, indent, pairs);
      MatchOverEntries(s, m, indent, pairs[1..], depth);
      MatchOverEntry(s, p, q0, q1, q2, q3, m, depth);
    }
  }

  lemma {:induction false} NoAdjacencyInEntries(s: string, p: nat, indent: string, pairs: seq<Pair>)
    requires EntriesAt(s, p, indent, pairs)
    ensures NoAdjacentTokens(s, p) == NoAdjacentTokens(s, p + |Entries(indent, pairs)|)
    decreases |pairs|
  {
    if pairs != [] {
      var q0, q1, q2, q3, m := FirstEntry(s, p, indent, pairs);
      NoAdjacencyInEntries(s, m, indent, pairs[1..]);
      NoAdjacencyInEntry(s, p, q0, q1, q2, q3, m);
    }
  }

  lemma {:induction false} NoCommentsInEntries(s: string, p: nat, indent: string, pairs: seq<Pair>)
    requires EntriesAt(s, p, indent, pairs)
    ensures NoComments(s, p) == NoComments(s, p + |Entries(indent, pairs)|)
    decreases |pairs|
  {
    if pairs != [] {
      var q0, q1, q2, q3, m := FirstEntry(s, p, indent, pairs);
      NoCommentsInEntries(s, m, indent, pairs[1..]);
      NoCommentsInEntry(s, p, q0, q1, q2, q3, m);
    }
  }

  lemma {:induction false} FindOverEntries(s: string, p: nat, indent: string, pairs: seq<Pair>)
    requires EntriesAt(s, p, indent, pairs)
    ensures FindAll(s, p) == pairs + FindAll(s, p + |Entries(indent, pairs)|)
    decreases |pairs|
  {
    if pairs != [] {
      var q0, q1, q2, q3, m := FirstEntry(s, p, indent, pairs);
      var rest := FindAll(s, p + |Entries(indent, pairs)|);
      FindOverEntries(s, m, indent, pairs[1..]);
      FindOverEntry(s, p, q0, q1, q2, q3, m);
      Assoc([pairs[0]], pairs[1..], rest);
      assert [pairs[0]] + pairs[1..] == pairs;
    }
  }

  lemma BodyOverEntries(indent: string, pairs: seq<Pair>)
    requires AllBlank(indent) && ValidPairs(pairs)
    ensures var body := Print(indent, pairs);
            NoAdjacentTokens(body, 0) && Strip(body, 0) == body && FindAll(body, 0) == pairs
  {
    var body := Print(indent, pairs);
    assert body[1..1 + |Entries(indent, pairs)|] == Entries(indent, pairs);
    NoAdjacencyInEntries(body, 1, indent, pairs);
    NoCommentsInEntries(body, 1, indent, pairs);
    FindOverEntries(body, 1, indent, pairs);
    AdjacencyOverInert(body, 0, 1);
    CommentsOverInert(body, 0, 1);
    FindOverInert(body, 0, 1);
    NothingToStrip(body, 0);
  }

  /** Reading back what was printed gives the printed pairs if and only if the pattern could have
      captured each of them: no empty key, no quote in a key, no lone quote in a value. */
  lemma PrintParseRoundTrip(indent: string, pairs: seq<Pair>)
    requires AllBlank(indent)
    ensures ParseBody(Print(indent, pairs)) == pairs <==> ValidPairs(pairs)
    ensures ValidPairs(pairs) ==> Strip(Print(indent, pairs), 0) == Print(indent, pairs)
    ensures ValidPairs(pairs) ==> NoAdjacentTokens(Print(indent, pairs), 0)
  {
    if ValidPairs(pairs) {
      BodyOverEntries(indent, pairs);
    }
    FoundPairsAreValid(Strip(Print(indent, pairs), 0), 0);
  }

  /** Scanning again from the open parenthesis in front of a printed block finds the closing
      parenthesis behind it. */
  lemma RescanFindsClose(s: string, open: nat, indent: string, pairs: seq<Pair>)
    requires AllBlank(indent) && ValidPairs(pairs)
    requires var end := open + 1 + |Print(indent, pairs)|;
             end < |s| && s[open] == '(' && s[open + 1..end] == Print(indent, pairs) && s[end] == ')'
    ensures MatchFrom(s, open, 0) == open + 1 + |Print(indent, pairs)|
  {
    var end := open + 1 + |Print(indent, pairs)|;
    assert s[open + 1] == s[open + 1..end][0] == '\n';
    assert s[open + 2..end] == s[open + 1..end][1..] == Entries(indent, pairs);
    assert MatchFrom(s, open, 0) == MatchFrom(s, open + 1, 1);
    MatchOverInert(s, open + 1, open + 2, 1);
    MatchOverEntries(s, open + 2, indent, pairs, 1);
    assert MatchFrom(s, end, 1) == end;
  }

  /** A line that starts with the indent and then a quote. */
  lemma IndentOfLine(s: string, i: nat, indent: string)
    requires AllBlank(indent) && i + |indent| < |s| && s[i..i + |indent|] == indent && s[i + |indent|] == '\''
    ensures Indent(s, i) == indent
  {
    var n := |indent|;
    assert forall k :: 0 <= k < n ==> s[i + k] == s[i..i + n][k] == indent[k];
    var end := LineEnd(s, i);
    assert end > i + n;
    var line := s[i..end];
    assert line[n] == '\'' && !AllSpace(line);
    assert forall k :: 0 <= k < n ==> line[k] == indent[k];
    assert BlankEnd(line, 0) == n;
    assert line[..n] == indent;
  }

  /** The indent of a printed block is the indent it was printed with. */
  lemma IndentOfPrinted(indent: string, pairs: seq<Pair>)
    requires AllBlank(indent) && ValidPairs(pairs) && pairs != []
    ensures Indent(Print(indent, pairs), 0) == indent
  {
    var body, n := Print(indent, pairs), |indent|;
    var entry := Entry(indent, pairs[0], |pairs| == 1);
    EntryChars(indent, pairs[0], |pairs| == 1);
    assert body == ("\n" + entry) + Entries(indent, pairs[1..]);
    assert body[1..1 + n] == entry[..n] && body[1 + n] == entry[n];
    IndentOfLine(body, 1, indent);
    assert LineEnd(body, 0) == 0 && body[0..0] == "";
  }

  /** Upserting the same values into a printed block reproduces it character by character. */
  lemma UpsertBodyIdempotent(body: string, ups: seq<Pair>)
    requires DistinctKeys(ups) && ValidPairs(ups)
    ensures UpsertBody(UpsertBody(body, ups), ups) == UpsertBody(body, ups)
  {
    var indent, pairs := Indent(body, 0), Upsert(ParseBody(body), ups);
    FoundPairsAreValid(Strip(body, 0), 0);
    UpsertKeepsValid(ParseBody(body), ups);
    PrintParseRoundTrip(indent, pairs);
    UpsertIdempotent(ParseBody(body), ups);
    if pairs != [] {
      IndentOfPrinted(indent, pairs);
    } else {
      assert Print(indent, pairs) == "\n";
    }
  }
}
