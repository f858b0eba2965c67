/** Rewriting the Kafka source of a job for a replay (findWithBlocks and rewriteForReplay in
    internal/flink/sqlrewrite.go). The matches of the CREATE TABLE pattern are an input. */
module SqlRewrite {
  import opened Wrappers
  import opened SqlScanner
  import opened SqlOptions
  import opened SqlPrinter

  const SCAN_STARTUP_MODE := "scan.startup.mode"
  const SCAN_STARTUP_MILLIS := "scan.startup.timestamp-millis"
  const AUTO_OFFSET_RESET := "properties.auto.offset.reset"
  const CONNECTOR := "connector"

  /** A table name and the end of the CREATE TABLE match that names it. */
  datatype TableMatch = TableMatch(table: string, end: nat)

  datatype WithBlock = WithBlock(table: string, connector: string, open: nat, close: nat)

  datatype RewriteError = NoKafkaSource | SourceNotFound | AmbiguousSource

  /** The block lies in the text, between its two parentheses. */
  predicate InText(sql: string, b: WithBlock) {
    b.open < b.close < |sql| && sql[b.open] == '(' && sql[b.close] == ')'
  }

  function BodyOf(sql: string, b: WithBlock): string
    requires InText(sql, b)
  {
    sql[b.open + 1..b.close]
  }

  /** The parentheses of the WITH block found from `start` on. */
  function SpanOf(sql: string, start: nat): (r: Option<(nat, nat)>)
    ensures r.Some? ==> r.value.0 < r.value.1 < |sql| && sql[r.value.0] == '(' && sql[r.value.1] == ')'
  {
    var open := FindOpen(sql, start);
    if open < 0 then None
    else
      var close := MatchFrom(sql, open, 0);
      if close < 0 then None
      else
        CloseIsParen(sql, open, 0);
        Some((open, close))
  }

  /** The WITH block that follows a CREATE TABLE match. */
  function BlockOf(sql: string, t: TableMatch): (r: Option<WithBlock>)
    ensures r.Some? ==> r.value.table == t.table && InText(sql, r.value)
  {
    match SpanOf(sql, t.end)
    case None => None
    case Some((open, close)) =>
      Some(WithBlock(t.table, ValueOf(ParseBody(sql[open + 1..close]), CONNECTOR), open, close))
  }

  /** The block of a match, said of the text: it goes from the parenthesis that the search finds to the
      one that closes it, and its connector is the option of that name; there is none if either
      parenthesis is missing. */
  lemma BlockIsFound(sql: string, t: TableMatch)
    ensures var open := FindOpen(sql, t.end);
            match BlockOf(sql, t)
            case None => open < 0 || MatchFrom(sql, open, 0) < 0
            case Some(b) =>
              && b.table == t.table && b.open == open && InText(sql, b)
              && b.close == MatchFrom(sql, open, 0)
              && b.connector == ValueOf(ParseBody(sql[b.open + 1..b.close]), "connector")
  {
  }

  lemma {:induction false} CloseIsParen(s: string, i: nat, depth: int)
    ensures MatchFrom(s, i, depth) >= 0 ==> s[MatchFrom(s, i, depth)] == ')'
    decreases |s| - i
  {
    var j := Skip(s, i);
    if j < |s| {
      CloseIsParen(s, j + 1, if s[j] == '(' then depth + 1 else if s[j] == ')' then depth - 1 else depth);
    }
  }

  function Blocks(sql: string, tables: seq<TableMatch>): (r: seq<WithBlock>)
    ensures forall b :: b in r ==> exists t :: t in tables && BlockOf(sql, t) == Some(b)
  {
    if tables == [] then []
    else
      var rest := Blocks(sql, tables[1..]);
      assert tables[0] in tables;
      if BlockOf(sql, tables[0]).Some? then [BlockOf(sql, tables[0]).value] + rest else rest
  }

  method FindBlock(sql: string, t: TableMatch) returns (r: Option<WithBlock>)
    ensures r == BlockOf(sql, t)
  {
    var open := FindWithOpenParen(sql, t.end);
    if open < 0 {
      return None;
    }
    var close := MatchParen(sql, open);
    if close < 0 {
      return None;
    }
    var connector := OptionValue(sql[open + 1..close], CONNECTOR);
    return Some(WithBlock(t.table, connector, open, close));
  }

  method FindWithBlocks(sql: string, tables: seq<TableMatch>) returns (out: seq<WithBlock>)
    ensures out == Blocks(sql, tables)
  {
    out := [];
    assert tables[0..] == tables;
    for i := 0 to |tables|
      invariant out + Blocks(sql, tables[i..]) == Blocks(sql, tables)
    {
      assert tables[i..][1..] == tables[i + 1..];
      var block := FindBlock(sql, tables[i]);
      if block.Some? {
        out := out + [block.value];
      }
    }
  }

  /** Go's lower casing, as far as it can produce the letters of "kafka": the Kelvin sign counts. */
  function Lower(c: char): char {
    if 'A' <= c <= 'Z' then c - 'A' + 'a' else if c == '\U{212A}' then 'k' else c
  }

  predicate IsKafka(connector: string) {
    |connector| >= 5 && forall i | 0 <= i < 5 :: Lower(connector[i]) == "kafka"[i]
  }

  function KafkaBlocks(blocks: seq<WithBlock>): seq<WithBlock> {
    if blocks == [] then []
    else if IsKafka(blocks[0].connector) then [blocks[0]] + KafkaBlocks(blocks[1..])
    else KafkaBlocks(blocks[1..])
  }

  lemma {:induction false} KafkaBlocksSelects(blocks: seq<WithBlock>)
    ensures forall b :: b in KafkaBlocks(blocks) <==> b in blocks && IsKafka(b.connector)
  {
    if blocks != [] {
      KafkaBlocksSelects(blocks[1..]);
      assert blocks == [blocks[0]] + blocks[1..];
    }
  }

  function FirstNamed(blocks: seq<WithBlock>, table: string): (r: Option<WithBlock>)
    ensures match r
            case Some(b) => b in blocks && b.table == table
            case None => forall b :: b in blocks ==> b.table != table
  {
    if blocks == [] then None
    else if blocks[0].table == table then Some(blocks[0])
    else FirstNamed(blocks[1..], table)
  }

  /** Which block to rewrite: the named Kafka source, or the only one. */
  function Target(blocks: seq<WithBlock>, sourceTable: string): (r: Result<WithBlock, RewriteError>)
    ensures r.Ok? ==>
            r.value in blocks && IsKafka(r.value.connector) && (sourceTable != "" ==> r.value.table == sourceTable)
    ensures r == Err(NoKafkaSource) <==> forall b :: b in blocks ==> !IsKafka(b.connector)
    ensures r == Err(SourceNotFound) ==> forall b :: b in blocks && IsKafka(b.connector) ==> b.table != sourceTable
    ensures r == Err(AmbiguousSource) ==> sourceTable == "" && |KafkaBlocks(blocks)| > 1
  {
    var kafka := KafkaBlocks(blocks);
    KafkaBlocksSelects(blocks);
    if kafka == [] then Err(NoKafkaSource)
    else
      assert kafka[0] in kafka;
      if sourceTable != "" then
        match FirstNamed(kafka, sourceTable)
        case Some(b) => Ok(b)
        case None => Err(SourceNotFound)
      else if |kafka| == 1 then Ok(kafka[0])
      else Err(AmbiguousSource)
  }

  /** "kafka" in front, in any case of its letters. */
  lemma IsKafkaInLiterals(c: string)
    ensures IsKafka(c)
            <==> |c| >= 5 && (c[0] == 'k' || c[0] == 'K' || c[0] == '\U{212A}') && (c[1] == 'a' || c[1] == 'A')
                 && (c[2] == 'f' || c[2] == 'F') && (c[3] == 'k' || c[3] == 'K' || c[3] == '\U{212A}')
                 && (c[4] == 'a' || c[4] == 'A')
  {
    var k := "kafka";
    assert k[0] == 'k' && k[1] == 'a' && k[2] == 'f' && k[3] == 'k' && k[4] == 'a';
    if IsKafka(c) {
      assert Lower(c[0]) == k[0] && Lower(c[1]) == k[1] && Lower(c[2]) == k[2] && Lower(c[3]) == k[3]
             && Lower(c[4]) == k[4];
    }
  }

  lemma OneBlock(sql: string, t: TableMatch)
    ensures Blocks(sql, [t]) == if BlockOf(sql, t).Some? then [BlockOf(sql, t).value] else []
  {
    assert [t][1..] == [] && Blocks(sql, []) == [];
  }

  /** Every match contributes its block, and on its own. */
  lemma {:induction false} BlocksOfEach(sql: string, tables: seq<TableMatch>, more: seq<TableMatch>)
    ensures Blocks(sql, tables + more) == Blocks(sql, tables) + Blocks(sql, more)
  {
    if tables == [] {
      assert tables + more == more;
    } else {
      var rest := tables[1..];
      assert (tables + more)[1..] == rest + more && (tables + more)[0] == tables[0];
      BlocksOfEach(sql, rest, more);
    }
  }

  /** A block that may be rewritten for a replay of `sourceTable`, "" standing for any. */
  predicate Wanted(b: WithBlock, sourceTable: string) {
    IsKafka(b.connector) && (sourceTable == "" || b.table == sourceTable)
  }

  ghost predicate SomeWanted(blocks: seq<WithBlock>, sourceTable: string) {
    exists i | 0 <= i < |blocks| :: Wanted(blocks[i], sourceTable)
  }

  ghost predicate TwoWanted(blocks: seq<WithBlock>, sourceTable: string) {
    exists i, j | 0 <= i < j < |blocks| :: Wanted(blocks[i], sourceTable) && Wanted(blocks[j], sourceTable)
  }

  predicate FirstWantedAt(blocks: seq<WithBlock>, sourceTable: string, i: nat) {
    i < |blocks| && Wanted(blocks[i], sourceTable) && forall j | 0 <= j < i :: !Wanted(blocks[j], sourceTable)
  }

  /** `b` is the first of the wanted blocks. */
  ghost predicate FirstWanted(blocks: seq<WithBlock>, sourceTable: string, b: WithBlock) {
    exists i: nat :: FirstWantedAt(blocks, sourceTable, i) && blocks[i] == b
  }

  lemma ConsWanted(b: WithBlock, rest: seq<WithBlock>, sourceTable: string)
    ensures var blocks := [b] + rest;
            && (SomeWanted(blocks, sourceTable) <==> Wanted(b, sourceTable) || SomeWanted(rest, sourceTable))
            && (TwoWanted(blocks, sourceTable)
                <==> TwoWanted(rest, sourceTable) || (Wanted(b, sourceTable) && SomeWanted(rest, sourceTable)))
  {
    var blocks := [b] + rest;
    if SomeWanted(rest, sourceTable) {
      var i :| 0 <= i < |rest| && Wanted(rest[i], sourceTable);
      assert blocks[i + 1] == rest[i] && blocks[0] == b;
    }
    if TwoWanted(rest, sourceTable) {
      var i, j :| 0 <= i < j < |rest| && Wanted(rest[i], sourceTable) && Wanted(rest[j], sourceTable);
      assert blocks[i + 1] == rest[i] && blocks[j + 1] == rest[j];
    }
    if Wanted(b, sourceTable) {
      assert Wanted(blocks[0], sourceTable);
    }
  }

  lemma ConsFirst(b: WithBlock, rest: seq<WithBlock>, sourceTable: string, x: WithBlock)
    requires if Wanted(b, sourceTable) then x == b else FirstWanted(rest, sourceTable, x)
    ensures FirstWanted([b] + rest, sourceTable, x)
  {
    var blocks := [b] + rest;
    if Wanted(b, sourceTable) {
      assert FirstWantedAt(blocks, sourceTable, 0);
    } else {
      var i: nat :| FirstWantedAt(rest, sourceTable, i) && rest[i] == x;
      assert forall j | 0 <= j < i + 1 :: blocks[j] == if j == 0 then b else rest[j - 1];
      assert blocks[i + 1] == x;
      assert FirstWantedAt(blocks, sourceTable, i + 1);
    }
  }

  lemma {:induction false} KafkaBlocksWanted(blocks: seq<WithBlock>)
    ensures KafkaBlocks(blocks) != [] <==> SomeWanted(blocks, "")
    ensures |KafkaBlocks(blocks)| > 1 <==> TwoWanted(blocks, "")
    ensures KafkaBlocks(blocks) != [] ==> FirstWanted(blocks, "", KafkaBlocks(blocks)[0])
  {
    if blocks != [] {
      var rest := blocks[1..];
      KafkaBlocksWanted(rest);
      assert blocks == [blocks[0]] + rest;
      ConsWanted(blocks[0], rest, "");
      if KafkaBlocks(blocks) != [] {
        ConsFirst(blocks[0], rest, "", KafkaBlocks(blocks)[0]);
      }
    }
  }

  lemma {:induction false} NamedBlocksWanted(blocks: seq<WithBlock>, sourceTable: string)
    requires sourceTable != ""
    ensures match FirstNamed(KafkaBlocks(blocks), sourceTable)
            case Some(b) => FirstWanted(blocks, sourceTable, b)
            case None => !SomeWanted(blocks, sourceTable)
  {
    if blocks != [] {
      var first, rest := blocks[0], blocks[1..];
      NamedBlocksWanted(rest, sourceTable);
      assert blocks == [first] + rest;
      ConsWanted(first, rest, sourceTable);
      var kafka := KafkaBlocks(rest);
      assert ([first] + kafka)[1..] == kafka;
      var found := FirstNamed(KafkaBlocks(blocks), sourceTable);
      assert found == if Wanted(first, sourceTable) then Some(first) else FirstNamed(kafka, sourceTable);
      if found.Some? {
        ConsFirst(first, rest, sourceTable, found.value);
      }
    }
  }

  /** The selection, answer by answer: no Kafka source; a name that none of them has; several of them
      and no name; else the first one with the name, or the only one. */
  lemma TargetExactly(blocks: seq<WithBlock>, sourceTable: string)
    ensures var r := Target(blocks, sourceTable);
            && (r == Err(NoKafkaSource) <==> !SomeWanted(blocks, ""))
            && (r == Err(SourceNotFound) <==> SomeWanted(blocks, "") && !SomeWanted(blocks, sourceTable))
            && (r == Err(AmbiguousSource) <==> sourceTable == "" && TwoWanted(blocks, ""))
            && (r.Ok? ==> FirstWanted(blocks, sourceTable, r.value))
  {
    KafkaBlocksWanted(blocks);
    if sourceTable != "" {
      NamedBlocksWanted(blocks, sourceTable);
    }
  }

  // ---------- the upserted values ----------

  function Decimal(n: nat): (r: string)
    ensures r != "" && QuoteFree(r)
  {
    if n < 10 then ["0123456789"[n]] else Decimal(n / 10) + ["0123456789"[n % 10]]
  }

  function FormatInt(n: int): (r: string)
    ensures QuoteFree(r)
  {
    if n < 0 then "-" + Decimal(-n) else Decimal(n)
  }

  function DigitValue(c: char): nat {
    if '0' <= c <= '9' then c as int - '0' as int else 0
  }

  /** What a decimal numeral stands for. */
  function ParseDecimal(s: string): nat {
    if s == "" then 0 else 10 * ParseDecimal(s[..|s| - 1]) + DigitValue(s[|s| - 1])
  }

  function ParseInt(s: string): int {
    if s != "" && s[0] == '-' then -(ParseDecimal(s[1..]) as int) else ParseDecimal(s)
  }

  lemma {:induction false} DecimalReadsBack(n: nat)
    ensures ParseDecimal(Decimal(n)) == n && Decimal(n)[0] != '-'
  {
    var d := "0123456789"[n % 10];
    assert DigitValue(d) == n % 10;
    if n < 10 {
      assert [d][..0] == "";
    } else {
      DecimalReadsBack(n / 10);
      assert (Decimal(n / 10) + [d])[..|Decimal(n / 10)|] == Decimal(n / 10);
    }
  }

  lemma {:induction false} DecimalIsPlain(n: nat)
    ensures forall i | 0 <= i < |Decimal(n)| :: '0' <= Decimal(n)[i] <= '9'
    ensures Decimal(n)[0] == '0' <==> n == 0
  {
    var d := "0123456789"[n % 10];
    assert '0' <= d <= '9' && (d == '0' <==> n % 10 == 0);
    if n >= 10 {
      DecimalIsPlain(n / 10);
    }
  }

  /** Digits only, with a sign in front of a negative number, and without leading zeros. */
  lemma FormatIntIsPlain(n: int)
    ensures var digits := if n < 0 then FormatInt(n)[1..] else FormatInt(n);
            && (n < 0 ==> FormatInt(n)[0] == '-')
            && digits != "" && (forall i | 0 <= i < |digits| :: '0' <= digits[i] <= '9')
            && (digits[0] == '0' <==> n == 0)
  {
    DecimalIsPlain(if n < 0 then -n else n);
  }

  /** The time that is written is the time that was asked for. */
  lemma FormatIntReadsBack(n: int)
    ensures ParseInt(FormatInt(n)) == n
  {
    DecimalReadsBack(if n < 0 then -n else n);
    assert n < 0 ==> FormatInt(n)[1..] == Decimal(-n);
  }

  function Startup(millis: int, autoOffsetReset: string): seq<Pair> {
    [Pair(SCAN_STARTUP_MODE, "timestamp"),
     Pair(SCAN_STARTUP_MILLIS, FormatInt(millis)),
     Pair(AUTO_OFFSET_RESET, if autoOffsetReset == "" then "earliest" else autoOffsetReset)]
  }

  lemma StartupKeys()
    ensures QuoteFree(SCAN_STARTUP_MODE) && QuoteFree(SCAN_STARTUP_MILLIS) && QuoteFree(AUTO_OFFSET_RESET)
    ensures QuoteFree("timestamp") && QuoteFree("earliest")
    ensures |SCAN_STARTUP_MODE| == 17 && |SCAN_STARTUP_MILLIS| == 29 && |AUTO_OFFSET_RESET| == 28 && |CONNECTOR| == 9
  {
  }

  lemma StartupIsValid(millis: int, autoOffsetReset: string)
    requires WellQuoted(autoOffsetReset)
    ensures ValidPairs(Startup(millis, autoOffsetReset)) && DistinctKeys(Startup(millis, autoOffsetReset))
    ensures FirstIndex(Startup(millis, autoOffsetReset), CONNECTOR) < 0
  {
    var mode, millisKey, reset := SCAN_STARTUP_MODE, SCAN_STARTUP_MILLIS, AUTO_OFFSET_RESET;
    StartupKeys();
    QuoteFreeIsWellQuoted("timestamp");
    QuoteFreeIsWellQuoted("earliest");
    QuoteFreeIsWellQuoted(FormatInt(millis));
    ThreePairs(mode, millisKey, reset, "timestamp", FormatInt(millis),
               if autoOffsetReset == "" then "earliest" else autoOffsetReset);
  }

  lemma ThreePairs(a: string, b: string, c: string, x: string, y: string, z: string)
    requires QuoteFree(a) && QuoteFree(b) && QuoteFree(c) && |a| == 17 && |b| == 29 && |c| == 28
    requires WellQuoted(x) && WellQuoted(y) && WellQuoted(z) && |CONNECTOR| == 9
    ensures var pairs := [Pair(a, x), Pair(b, y), Pair(c, z)];
            ValidPairs(pairs) && DistinctKeys(pairs) && FirstIndex(pairs, CONNECTOR) < 0
  {
  }

  // ---------- the rewrite ----------

  function RewriteBlock(sql: string, b: WithBlock, ups: seq<Pair>): string
    requires InText(sql, b)
  {
    sql[..b.open + 1] + UpsertBody(BodyOf(sql, b), ups) + sql[b.close..]
  }

  function Rewrite(sql: string, tables: seq<TableMatch>, sourceTable: string, millis: int, autoOffsetReset: string)
    : Result<(string, string), RewriteError>
  {
    match Target(Blocks(sql, tables), sourceTable)
    case Err(e) => Err(e)
    case Ok(b) => Ok((RewriteBlock(sql, b, Startup(millis, autoOffsetReset)), b.table))
  }

  method SelectKafka(blocks: seq<WithBlock>) returns (kafka: seq<WithBlock>)
    ensures kafka == KafkaBlocks(blocks)
  {
    kafka := [];
    for i := 0 to |blocks|
      invariant kafka + KafkaBlocks(blocks[i..]) == KafkaBlocks(blocks)
    {
      assert blocks[i..][1..] == blocks[i + 1..];
      if IsKafka(blocks[i].connector) {
        kafka := kafka + [blocks[i]];
      }
    }
  }

  method FindNamed(kafka: seq<WithBlock>, sourceTable: string) returns (r: Option<WithBlock>)
    ensures r == FirstNamed(kafka, sourceTable)
  {
    for i := 0 to |kafka|
      invariant FirstNamed(kafka[i..], sourceTable) == FirstNamed(kafka, sourceTable)
    {
      assert kafka[i..][1..] == kafka[i + 1..];
      if kafka[i].table == sourceTable {
        return Some(kafka[i]);
      }
    }
    return None;
  }

  method SelectTarget(blocks: seq<WithBlock>, sourceTable: string) returns (r: Result<WithBlock, RewriteError>)
    ensures r == Target(blocks, sourceTable)
  {
    var kafka := SelectKafka(blocks);
    if |kafka| == 0 {
      return Err(NoKafkaSource);
    }
    if sourceTable != "" {
      var found := FindNamed(kafka, sourceTable);
      return if found.Some? then Ok(found.value) else Err(SourceNotFound);
    }
    return if |kafka| == 1 then Ok(kafka[0]) else Err(AmbiguousSource);
  }

  method RewriteForReplay(sql: string, tables: seq<TableMatch>, sourceTable: string, millis: int,
                          autoOffsetReset: string)
    returns (r: Result<(string, string), RewriteError>)
    ensures r == Rewrite(sql, tables, sourceTable, millis, autoOffsetReset)
  {
    var blocks := FindWithBlocks(sql, tables);
    var found := SelectTarget(blocks, sourceTable);
    if found.Err? {
      return Err(found.error);
    }
    var out := RewriteTarget(sql, found.value, Startup(millis, autoOffsetReset));
    return Ok((out, found.value.table));
  }

  method RewriteTarget(sql: string, target: WithBlock, ups: seq<Pair>) returns (out: string)
    requires InText(sql, target)
    ensures out == RewriteBlock(sql, target, ups)
  {
    var newBody := UpsertWithOptions(sql[target.open + 1..target.close], ups);
    out := sql[..target.open + 1] + newBody + sql[target.close..];
  }

  // ---------- what the rewrite keeps ----------

  /** `out` is `sql` with the body of the block replaced. */
  predicate IsSplice(sql: string, b: WithBlock, newBody: string, out: string)
    requires InText(sql, b)
  {
    var end := b.open + 1 + |newBody|;
    && end < |out|
    && out[..b.open + 1] == sql[..b.open + 1] && out[b.open + 1..end] == newBody && out[end..] == sql[b.close..]
    && out[b.open] == '(' && out[end] == ')'
  }

  lemma SplitOut(sql: string, b: WithBlock, newBody: string)
    requires InText(sql, b)
    ensures var out := sql[..b.open + 1] + newBody + sql[b.close..];
            IsSplice(sql, b, newBody, out) && SamePrefix(sql, out, b.open + 1)
  {
  }

  lemma RewriteBlockIsSplice(sql: string, b: WithBlock, ups: seq<Pair>)
    requires InText(sql, b)
    ensures IsSplice(sql, b, UpsertBody(BodyOf(sql, b), ups), RewriteBlock(sql, b, ups))
    ensures SamePrefix(sql, RewriteBlock(sql, b, ups), b.open + 1)
  {
    SplitOut(sql, b, UpsertBody(BodyOf(sql, b), ups));
  }

  lemma BlockFrom(sql: string, t: TableMatch, open: nat, close: nat, body: string)
    requires FindOpen(sql, t.end) == open && MatchFrom(sql, open, 0) == close
    requires open < close && sql[open + 1..close] == body
    ensures BlockOf(sql, t) == Some(WithBlock(t.table, ValueOf(ParseBody(body), CONNECTOR), open, close))
  {
  }

  lemma ReopenAndClose(sql: string, t: TableMatch, ups: seq<Pair>)
    requires BlockOf(sql, t).Some? && ValidPairs(ups)
    ensures var b := BlockOf(sql, t).value;
            var out := RewriteBlock(sql, b, ups);
            && FindOpen(out, t.end) == b.open
            && MatchFrom(out, b.open, 0) == b.open + 1 + |UpsertBody(BodyOf(sql, b), ups)|
  {
    var b := BlockOf(sql, t).value;
    var body := BodyOf(sql, b);
    FoundPairsAreValid(Strip(body, 0), 0);
    UpsertKeepsValid(ParseBody(body), ups);
    RewriteBlockIsSplice(sql, b, ups);
    FindOpenLocal(sql, RewriteBlock(sql, b, ups), t.end);
    RescanFindsClose(RewriteBlock(sql, b, ups), b.open, Indent(body, 0), Upsert(ParseBody(body), ups));
  }

  /** In the rewritten text the same CREATE TABLE match leads to the same open parenthesis and to the
      parenthesis behind the new body; everything outside the block is untouched. */
  lemma RewrittenBlock(sql: string, t: TableMatch, ups: seq<Pair>, b: WithBlock, newBody: string, out: string)
    requires BlockOf(sql, t) == Some(b) && ValidPairs(ups)
    requires newBody == UpsertBody(BodyOf(sql, b), ups) && out == RewriteBlock(sql, b, ups)
    ensures BlockOf(out, t)
            == Some(WithBlock(t.table, ValueOf(ParseBody(newBody), CONNECTOR), b.open, b.open + 1 + |newBody|))
    ensures IsSplice(sql, b, newBody, out)
  {
    RewriteBlockIsSplice(sql, b, ups);
    ReopenAndClose(sql, t, ups);
    SplicedBlock(sql, t, b, newBody, out);
  }

  lemma SplicedBlock(sql: string, t: TableMatch, b: WithBlock, newBody: string, out: string)
    requires InText(sql, b) && IsSplice(sql, b, newBody, out)
    requires FindOpen(out, t.end) == b.open && MatchFrom(out, b.open, 0) == b.open + 1 + |newBody|
    ensures BlockOf(out, t)
            == Some(WithBlock(t.table, ValueOf(ParseBody(newBody), CONNECTOR), b.open, b.open + 1 + |newBody|))
  {
    BlockFrom(out, t, b.open, b.open + 1 + |newBody|, newBody);
  }

  /** The new body reads back as the upserted pairs. */
  lemma RewrittenPairs(body: string, ups: seq<Pair>)
    requires ValidPairs(ups)
    ensures ParseBody(UpsertBody(body, ups)) == Upsert(ParseBody(body), ups)
  {
    FoundPairsAreValid(Strip(body, 0), 0);
    UpsertKeepsValid(ParseBody(body), ups);
    PrintParseRoundTrip(Indent(body, 0), Upsert(ParseBody(body), ups));
  }

  /** Rewriting the block of a table a second time with the same values changes nothing. */
  lemma RewriteBlockIdempotent(sql: string, t: TableMatch, ups: seq<Pair>)
    requires BlockOf(sql, t).Some? && ValidPairs(ups) && DistinctKeys(ups)
    ensures var out := RewriteBlock(sql, BlockOf(sql, t).value, ups);
            BlockOf(out, t).Some? && RewriteBlock(out, BlockOf(out, t).value, ups) == out
  {
    var b := BlockOf(sql, t).value;
    var newBody, out := UpsertBody(BodyOf(sql, b), ups), RewriteBlock(sql, b, ups);
    RewrittenBlock(sql, t, ups, b, newBody, out);
    UpsertBodyIdempotent(BodyOf(sql, b), ups);
    RewriteAgain(sql, b, newBody, out, BlockOf(out, t).value, ups);
  }

  lemma RewriteAgain(sql: string, b: WithBlock, newBody: string, out: string, b': WithBlock, ups: seq<Pair>)
    requires InText(sql, b) && IsSplice(sql, b, newBody, out)
    requires InText(out, b') && b'.open == b.open && b'.close == b.open + 1 + |newBody|
    requires UpsertBody(newBody, ups) == newBody
    ensures RewriteBlock(out, b', ups) == out
  {
    SplicedBody(sql, b, newBody, out, b');
    RewriteBlockFrom(out, b', ups, newBody, newBody);
    Resplice(sql, b, newBody, out);
  }

  lemma RewriteBlockFrom(sql: string, b: WithBlock, ups: seq<Pair>, body: string, newBody: string)
    requires InText(sql, b) && BodyOf(sql, b) == body && UpsertBody(body, ups) == newBody
    ensures RewriteBlock(sql, b, ups) == sql[..b.open + 1] + newBody + sql[b.close..]
  {
  }

  lemma Resplice(sql: string, b: WithBlock, newBody: string, out: string)
    requires InText(sql, b) && IsSplice(sql, b, newBody, out)
    ensures out[..b.open + 1] + newBody + out[b.open + 1 + |newBody|..] == out
  {
  }

  ghost predicate AllReadBack(before: seq<Pair>, after: seq<Pair>, ups: seq<Pair>) {
    forall key :: ReadsBack(before, after, ups, key)
  }

  /** `out` is `sql` with the block of `t` rewritten to hold `ups`. */
  ghost predicate IsRewrite(sql: string, out: string, t: TableMatch, ups: seq<Pair>) {
    && BlockOf(sql, t).Some? && BlockOf(out, t).Some?
    && (var b, b' := BlockOf(sql, t).value, BlockOf(out, t).value;
        && b'.open == b.open && b'.connector == b.connector
        && IsSplice(sql, b, BodyOf(out, b'), out)
        && AllReadBack(ParseBody(BodyOf(sql, b)), ParseBody(BodyOf(out, b')), ups))
  }

  lemma RewriteBlockIsRewrite(sql: string, t: TableMatch, ups: seq<Pair>)
    requires BlockOf(sql, t).Some? && ValidPairs(ups) && DistinctKeys(ups) && FirstIndex(ups, CONNECTOR) < 0
    ensures IsRewrite(sql, RewriteBlock(sql, BlockOf(sql, t).value, ups), t, ups)
  {
    var b := BlockOf(sql, t).value;
    var newBody, out := UpsertBody(BodyOf(sql, b), ups), RewriteBlock(sql, b, ups);
    RewrittenBlock(sql, t, ups, b, newBody, out);
    RewrittenPairs(BodyOf(sql, b), ups);
    BlockIsRewrite(sql, out, t, ups, b, newBody, ParseBody(BodyOf(sql, b)));
  }

  lemma BlockIsRewrite(sql: string, out: string, t: TableMatch, ups: seq<Pair>, b: WithBlock, newBody: string,
                       pairs: seq<Pair>)
    requires BlockOf(sql, t) == Some(b) && IsSplice(sql, b, newBody, out) && DistinctKeys(ups)
             && FirstIndex(ups, CONNECTOR) < 0
    requires BlockOf(out, t)
             == Some(WithBlock(t.table, ValueOf(ParseBody(newBody), CONNECTOR), b.open, b.open + 1 + |newBody|))
    requires pairs == ParseBody(BodyOf(sql, b)) && ParseBody(newBody) == Upsert(pairs, ups)
    ensures IsRewrite(sql, out, t, ups)
  {
    BlockKeepsConnector(sql, t, b, pairs);
    UpsertReadsBack(pairs, ups, CONNECTOR);
    UpsertAllReadBack(pairs, ups);
    SpliceIsRewrite(sql, out, t, ups, b, newBody);
  }

  lemma BlockKeepsConnector(sql: string, t: TableMatch, b: WithBlock, pairs: seq<Pair>)
    requires BlockOf(sql, t) == Some(b) && pairs == ParseBody(BodyOf(sql, b))
    ensures b.connector == ValueOf(pairs, CONNECTOR)
  {
  }

  lemma SpliceIsRewrite(sql: string, out: string, t: TableMatch, ups: seq<Pair>, b: WithBlock, newBody: string)
    requires BlockOf(sql, t) == Some(b) && IsSplice(sql, b, newBody, out)
    requires BlockOf(out, t)
             == Some(WithBlock(t.table, ValueOf(ParseBody(newBody), CONNECTOR), b.open, b.open + 1 + |newBody|))
    requires AllReadBack(ParseBody(BodyOf(sql, b)), ParseBody(newBody), ups)
    requires b.connector == ValueOf(ParseBody(newBody), CONNECTOR)
    ensures IsRewrite(sql, out, t, ups)
  {
    SplicedBody(sql, b, newBody, out, BlockOf(out, t).value);
  }

  lemma SplicedBody(sql: string, b: WithBlock, newBody: string, out: string, b': WithBlock)
    requires InText(sql, b) && IsSplice(sql, b, newBody, out)
    requires InText(out, b') && b'.open == b.open && b'.close == b.open + 1 + |newBody|
    ensures BodyOf(out, b') == newBody
  {
  }

  lemma UpsertAllReadBack(before: seq<Pair>, ups: seq<Pair>)
    requires DistinctKeys(ups)
    ensures AllReadBack(before, Upsert(before, ups), ups)
  {
    forall key
      ensures ReadsBack(before, Upsert(before, ups), ups, key)
    {
      UpsertReadsBack(before, ups, key);
    }
  }

  /** A successful rewrite changes exactly one block, that of a Kafka source, which stays a Kafka
      source with the same connector, and sets the three startup options in it. */
  lemma RewriteIsRight(sql: string, tables: seq<TableMatch>, sourceTable: string, millis: int, autoOffsetReset: string)
    returns (t: TableMatch)
    requires WellQuoted(autoOffsetReset)
    requires Rewrite(sql, tables, sourceTable, millis, autoOffsetReset).Ok?
    ensures t in tables && BlockOf(sql, t).Some? && IsKafka(BlockOf(sql, t).value.connector)
    ensures var (out, table) := Rewrite(sql, tables, sourceTable, millis, autoOffsetReset).value;
            && t.table == table && (sourceTable != "" ==> table == sourceTable)
            && IsRewrite(sql, out, t, Startup(millis, autoOffsetReset))
  {
    var b := Target(Blocks(sql, tables), sourceTable).value;
    t :| t in tables && BlockOf(sql, t) == Some(b);
    StartupIsValid(millis, autoOffsetReset);
    RewriteBlockIsRewrite(sql, t, Startup(millis, autoOffsetReset));
  }

  /** When the rewrite fails, and how. */
  lemma RewriteFails(sql: string, tables: seq<TableMatch>, sourceTable: string, millis: int, autoOffsetReset: string)
    ensures var r, blocks := Rewrite(sql, tables, sourceTable, millis, autoOffsetReset), Blocks(sql, tables);
            && (r == Err(NoKafkaSource) <==> !SomeWanted(blocks, ""))
            && (r == Err(SourceNotFound) <==> SomeWanted(blocks, "") && !SomeWanted(blocks, sourceTable))
            && (r == Err(AmbiguousSource) <==> sourceTable == "" && TwoWanted(blocks, ""))
  {
    TargetExactly(Blocks(sql, tables), sourceTable);
  }

  /** Else it answers the text with a new body in the first wanted block, and the name of its table. */
  lemma RewriteTakesWanted(sql: string, tables: seq<TableMatch>, sourceTable: string, millis: int,
                           autoOffsetReset: string)
    returns (b: WithBlock)
    requires Rewrite(sql, tables, sourceTable, millis, autoOffsetReset).Ok?
    ensures FirstWanted(Blocks(sql, tables), sourceTable, b) && InText(sql, b)
    ensures Rewrite(sql, tables, sourceTable, millis, autoOffsetReset)
            == Ok((RewriteBlock(sql, b, Startup(millis, autoOffsetReset)), b.table))
  {
    TargetExactly(Blocks(sql, tables), sourceTable);
    b := Target(Blocks(sql, tables), sourceTable).value;
    BlockInText(sql, tables, b);
  }

  lemma BlockInText(sql: string, tables: seq<TableMatch>, b: WithBlock)
    requires b in Blocks(sql, tables)
    ensures InText(sql, b)
  {
  }

  /** The key occurs at most once. */
  predicate AtMostOnce(pairs: seq<Pair>, key: string) {
    FirstIndex(pairs, key) == LastIndex(pairs, key)
  }

  lemma StartupIndices(a: string, b: string, c: string, x: string, y: string, z: string)
    requires |a| == 17 && |b| == 29 && |c| == 28
    ensures var pairs := [Pair(a, x), Pair(b, y), Pair(c, z)];
            FirstIndex(pairs, a) == 0 && FirstIndex(pairs, b) == 1 && FirstIndex(pairs, c) == 2
  {
    var pairs := [Pair(a, x), Pair(b, y), Pair(c, z)];
    assert pairs[0].key == a && pairs[1].key == b && pairs[2].key == c;
  }

  /** After a rewrite the source starts at the given time: each startup option that did not occur
      twice in the old block reads back as set. */
  lemma StartupReadsBack(sql: string, out: string, t: TableMatch, millis: int, autoOffsetReset: string)
    requires IsRewrite(sql, out, t, Startup(millis, autoOffsetReset))
    ensures var before := ParseBody(BodyOf(sql, BlockOf(sql, t).value));
            var after := ParseBody(BodyOf(out, BlockOf(out, t).value));
            && (AtMostOnce(before, "scan.startup.mode") ==> ValueOf(after, "scan.startup.mode") == "timestamp")
            && (AtMostOnce(before, "scan.startup.timestamp-millis") ==>
                  ValueOf(after, "scan.startup.timestamp-millis") == FormatInt(millis))
            && (AtMostOnce(before, "properties.auto.offset.reset") ==>
                  ValueOf(after, "properties.auto.offset.reset")
                  == if autoOffsetReset == "" then "earliest" else autoOffsetReset)
  {
    var before, after := ParseBody(BodyOf(sql, BlockOf(sql, t).value)), ParseBody(BodyOf(out, BlockOf(out, t).value));
    ReadStartup(before, after, SCAN_STARTUP_MODE, SCAN_STARTUP_MILLIS, AUTO_OFFSET_RESET, "timestamp",
                FormatInt(millis), if autoOffsetReset == "" then "earliest" else autoOffsetReset);
  }

  lemma ReadStartup(before: seq<Pair>, after: seq<Pair>, a: string, b: string, c: string, x: string, y: string,
                    z: string)
    requires |a| == 17 && |b| == 29 && |c| == 28
    requires AllReadBack(before, after, [Pair(a, x), Pair(b, y), Pair(c, z)])
    ensures AtMostOnce(before, a) ==> ValueOf(after, a) == x
    ensures AtMostOnce(before, b) ==> ValueOf(after, b) == y
    ensures AtMostOnce(before, c) ==> ValueOf(after, c) == z
  {
    var ups := [Pair(a, x), Pair(b, y), Pair(c, z)];
    StartupIndices(a, b, c, x, y, z);
    assert ReadsBack(before, after, ups, a) && ReadsBack(before, after, ups, b) && ReadsBack(before, after, ups, c);
  }

  // ---------- the other tables ----------

  /** A pair of positions moved by `d`, if there is one. */
  function MovedSpan(span: Option<(nat, nat)>, d: int): Option<(int, int)> {
    match span
    case None => None
    case Some((open, close)) => Some((open + d, close + d))
  }

  lemma BehindIsMoved(sql: string, b: WithBlock, newBody: string, out: string)
    requires InText(sql, b) && IsSplice(sql, b, newBody, out)
    ensures Moved(sql, out, b.close, |out| - |sql|)
  {
    var end := b.open + 1 + |newBody|;
    assert |out| - end == |out[end..]| == |sql[b.close..]| == |sql| - b.close;
    forall k | b.close <= k < |sql|
      ensures out[k + (end - b.close)] == sql[k]
    {
      assert out[end..][k - b.close] == sql[b.close..][k - b.close];
    }
  }

  lemma BodyMoved(s: string, t: string, a: nat, d: int, open: nat, close: nat)
    requires Moved(s, t, a, d) && a <= open < close < |s|
    ensures open + d >= 0 && close + d < |t| && t[open + d + 1..close + d] == s[open + 1..close]
  {
  }

  lemma SpanOfMoved(s: string, t: string, a: nat, d: int, start: nat)
    requires Moved(s, t, a, d) && a < start
    ensures start + d >= 0 && SpanOf(t, start + d) == MovedSpan(SpanOf(s, start), d)
  {
    FindOpenMoved(s, t, a, d, start);
    var open := FindOpen(s, start);
    if open >= 0 {
      MatchMoved(s, t, a, d, open, 0);
    }
  }

  lemma BlockOfSpan(sql: string, m: TableMatch, open: nat, close: nat, body: string)
    requires SpanOf(sql, m.end) == Some((open, close)) && sql[open + 1..close] == body
    ensures BlockOf(sql, m) == Some(WithBlock(m.table, ValueOf(ParseBody(body), CONNECTOR), open, close))
    ensures BodyOf(sql, BlockOf(sql, m).value) == body
  {
  }

  lemma BlockOfMoved(s: string, t: string, a: nat, d: int, m: TableMatch, m': TableMatch)
    requires Moved(s, t, a, d) && a < m.end && m'.table == m.table && m'.end == m.end + d
    ensures SameBlock(BlockOf(s, m), BlockOf(t, m'), d)
    ensures SameBody(s, BlockOf(s, m), t, BlockOf(t, m'))
  {
    SpanOfMoved(s, t, a, d, m.end);
    match SpanOf(s, m.end)
    case None =>
    case Some((open, close)) =>
      assert a <= open;
      BodyMoved(s, t, a, d, open, close);
      BlockOfSpan(s, m, open, close, s[open + 1..close]);
      BlockOfSpan(t, m', open + d, close + d, s[open + 1..close]);
  }

  /** The same block, moved by `d`. */
  predicate SameBlock(r: Option<WithBlock>, r': Option<WithBlock>, d: int) {
    match r
    case None => r' == None
    case Some(b) =>
      r'.Some? && r'.value.table == b.table && r'.value.connector == b.connector
      && r'.value.open == b.open + d && r'.value.close == b.close + d
  }

  predicate SameBody(s: string, r: Option<WithBlock>, t: string, r': Option<WithBlock>) {
    r.Some? && r'.Some? && InText(s, r.value) && InText(t, r'.value) ==> BodyOf(s, r.value) == BodyOf(t, r'.value)
  }

  /** A rewrite leaves the tables behind the rewritten block as they are: each match that ends there
      leads, moved by the change of length, to the same block with the same connector and body. */
  lemma OtherBlocksMove(sql: string, b: WithBlock, ups: seq<Pair>, out: string, m: TableMatch, m': TableMatch)
    requires InText(sql, b) && out == RewriteBlock(sql, b, ups)
    requires m.end > b.close && m'.table == m.table && m'.end == m.end + |out| - |sql|
    ensures SameBlock(BlockOf(sql, m), BlockOf(out, m'), |out| - |sql|)
    ensures SameBody(sql, BlockOf(sql, m), out, BlockOf(out, m'))
  {
    RewriteMovesRest(sql, b, ups);
    BlockOfMoved(sql, out, b.close, |out| - |sql|, m, m');
  }

  lemma RewriteMovesRest(sql: string, b: WithBlock, ups: seq<Pair>)
    requires InText(sql, b)
    ensures Moved(sql, RewriteBlock(sql, b, ups), b.close, |RewriteBlock(sql, b, ups)| - |sql|)
  {
    RewriteBlockIsSplice(sql, b, ups);
    BehindIsMoved(sql, b, UpsertBody(BodyOf(sql, b), ups), RewriteBlock(sql, b, ups));
  }

  /** The search for a block and its end does not look at the character at `n` or behind. */
  predicate LooksBefore(sql: string, start: nat, n: nat) {
    if FindOpen(sql, start) < 0 then StopAt(sql, start) < n else 0 <= MatchFrom(sql, FindOpen(sql, start), 0) < n
  }

  lemma SpanLocal(s: string, t: string, n: nat, start: nat)
    requires SamePrefix(s, t, n) && LooksBefore(s, start, n)
    ensures SpanOf(t, start) == SpanOf(s, start)
    ensures SpanOf(s, start).Some? ==> SpanOf(s, start).value.1 < n
  {
    SearchLocal(s, t, n, start);
    if FindOpen(s, start) >= 0 {
      MatchLocal(s, t, n, FindOpen(s, start), 0);
    }
  }

  lemma SameSlice(s: string, t: string, n: nat, open: nat, close: nat)
    requires SamePrefix(s, t, n) && open < close < n
    ensures t[open + 1..close] == s[open + 1..close]
  {
  }

  /** A rewrite leaves the tables in front of the rewritten block as they are. */
  lemma FrontBlocksStay(sql: string, b: WithBlock, ups: seq<Pair>, out: string, m: TableMatch)
    requires InText(sql, b) && out == RewriteBlock(sql, b, ups) && LooksBefore(sql, m.end, b.open)
    ensures BlockOf(out, m) == BlockOf(sql, m)
    ensures SameBody(sql, BlockOf(sql, m), out, BlockOf(out, m))
  {
    RewriteBlockIsSplice(sql, b, ups);
    SpanLocal(sql, out, b.open + 1, m.end);
    match SpanOf(sql, m.end)
    case None =>
    case Some((open, close)) =>
      SameSlice(sql, out, b.open + 1, open, close);
      BlockOfSpan(sql, m, open, close, sql[open + 1..close]);
      BlockOfSpan(out, m, open, close, sql[open + 1..close]);
  }

  // ---------- running the whole rewrite again ----------

  /** The match ends behind the block, or leads to that block, or has nothing to do with it. */
  predicate Separate(sql: string, b: WithBlock, m: TableMatch) {
    m.end > b.close || SpanOf(sql, m.end) == Some((b.open, b.close)) || LooksBefore(sql, m.end, b.open)
  }

  /** Where the match is when the block ends at `close` instead. */
  function MovedMatch(b: WithBlock, close: nat, m: TableMatch): TableMatch {
    if m.end > b.close then m.(end := m.end - b.close + close) else m
  }

  function MovedMatches(b: WithBlock, close: nat, tables: seq<TableMatch>): seq<TableMatch> {
    if tables == [] then [] else [MovedMatch(b, close, tables[0])] + MovedMatches(b, close, tables[1..])
  }

  function MovedBlock(b: WithBlock, close: nat, x: WithBlock): WithBlock {
    if x.open == b.open then x.(close := close)
    else if x.open > b.close && x.close > b.close
      then x.(open := x.open - b.close + close, close := x.close - b.close + close)
    else x
  }

  function MovedBlocks(b: WithBlock, close: nat, blocks: seq<WithBlock>): seq<WithBlock> {
    if blocks == [] then [] else [MovedBlock(b, close, blocks[0])] + MovedBlocks(b, close, blocks[1..])
  }

  function NewClose(sql: string, b: WithBlock, ups: seq<Pair>): nat
    requires InText(sql, b)
  {
    b.open + 1 + |UpsertBody(BodyOf(sql, b), ups)|
  }

  /** What a match leads to now is what it led to before, moved. */
  predicate FoundAgain(b: WithBlock, close: nat, r: Option<WithBlock>, r': Option<WithBlock>) {
    r' == if r.None? then None else Some(MovedBlock(b, close, r.value))
  }

  lemma BehindIsFoundAgain(b: WithBlock, close: nat, r: Option<WithBlock>, r': Option<WithBlock>)
    requires b.open < b.close && SameBlock(r, r', close - b.close)
    requires r.Some? ==> b.close < r.value.open < r.value.close
    ensures FoundAgain(b, close, r, r')
  {
  }

  lemma BlockBounds(sql: string, m: TableMatch)
    ensures var r := BlockOf(sql, m);
            r.Some? ==> m.end <= r.value.open && SpanOf(sql, m.end) == Some((r.value.open, r.value.close))
  {
  }

  lemma BehindLength(sql: string, b: WithBlock, newBody: string, out: string)
    requires InText(sql, b) && IsSplice(sql, b, newBody, out)
    ensures |out| - |sql| == b.open + 1 + |newBody| - b.close
  {
    var end := b.open + 1 + |newBody|;
    assert |out| - end == |out[end..]| == |sql[b.close..]| == |sql| - b.close;
  }

  lemma BehindAgain(sql: string, b: WithBlock, ups: seq<Pair>, out: string, m: TableMatch)
    requires InText(sql, b) && out == RewriteBlock(sql, b, ups) && m.end > b.close
    ensures var close := NewClose(sql, b, ups);
            FoundAgain(b, close, BlockOf(sql, m), BlockOf(out, MovedMatch(b, close, m)))
  {
    var close := NewClose(sql, b, ups);
    RewriteBlockIsSplice(sql, b, ups);
    BehindLength(sql, b, UpsertBody(BodyOf(sql, b), ups), out);
    OtherBlocksMove(sql, b, ups, out, m, MovedMatch(b, close, m));
    BlockBounds(sql, m);
    BehindIsFoundAgain(b, close, BlockOf(sql, m), BlockOf(out, MovedMatch(b, close, m)));
  }

  lemma FrontAgain(sql: string, b: WithBlock, ups: seq<Pair>, out: string, m: TableMatch)
    requires InText(sql, b) && out == RewriteBlock(sql, b, ups) && LooksBefore(sql, m.end, b.open)
    ensures FoundAgain(b, NewClose(sql, b, ups), BlockOf(sql, m), BlockOf(out, m))
  {
    FrontBlocksStay(sql, b, ups, out, m);
    RewriteBlockIsSplice(sql, b, ups);
    SpanLocal(sql, out, b.open + 1, m.end);
    BlockBounds(sql, m);
  }

  lemma SameSpan(sql: string, b: WithBlock, x: WithBlock, ups: seq<Pair>)
    requires InText(sql, b) && x.open == b.open && x.close == b.close
    ensures RewriteBlock(sql, x, ups) == RewriteBlock(sql, b, ups) && NewClose(sql, x, ups) == NewClose(sql, b, ups)
  {
  }

  lemma KeepsConnector(sql: string, m: TableMatch, ups: seq<Pair>)
    requires BlockOf(sql, m).Some? && ValidPairs(ups) && DistinctKeys(ups) && FirstIndex(ups, CONNECTOR) < 0
    ensures var r := BlockOf(RewriteBlock(sql, BlockOf(sql, m).value, ups), m);
            r.Some? && r.value.connector == BlockOf(sql, m).value.connector
  {
    RewriteBlockIsRewrite(sql, m, ups);
  }

  lemma Reclosed(sql: string, m: TableMatch, ups: seq<Pair>)
    requires BlockOf(sql, m).Some? && ValidPairs(ups)
    ensures var x := BlockOf(sql, m).value;
            var r := BlockOf(RewriteBlock(sql, x, ups), m);
            r.Some? && r.value.open == x.open && r.value.close == NewClose(sql, x, ups)
  {
    var x := BlockOf(sql, m).value;
    RewrittenBlock(sql, m, ups, x, UpsertBody(BodyOf(sql, x), ups), RewriteBlock(sql, x, ups));
  }

  lemma ConnectorStays(sql: string, m: TableMatch, ups: seq<Pair>)
    requires BlockOf(sql, m).Some? && ValidPairs(ups) && DistinctKeys(ups) && FirstIndex(ups, CONNECTOR) < 0
    ensures var x := BlockOf(sql, m).value;
            BlockOf(RewriteBlock(sql, x, ups), m) == Some(x.(close := NewClose(sql, x, ups)))
  {
    KeepsConnector(sql, m, ups);
    Reclosed(sql, m, ups);
  }

  lemma SameBlockAgain(sql: string, b: WithBlock, ups: seq<Pair>, out: string, m: TableMatch)
    requires InText(sql, b) && out == RewriteBlock(sql, b, ups) && SpanOf(sql, m.end) == Some((b.open, b.close))
    requires ValidPairs(ups) && DistinctKeys(ups) && FirstIndex(ups, CONNECTOR) < 0
    ensures FoundAgain(b, NewClose(sql, b, ups), BlockOf(sql, m), BlockOf(out, m))
  {
    BlockOfSpan(sql, m, b.open, b.close, BodyOf(sql, b));
    SameSpan(sql, b, BlockOf(sql, m).value, ups);
    ConnectorStays(sql, m, ups);
  }

  /** Every match finds its block again. */
  lemma BlockAgain(sql: string, b: WithBlock, ups: seq<Pair>, out: string, m: TableMatch)
    requires InText(sql, b) && out == RewriteBlock(sql, b, ups) && Separate(sql, b, m)
    requires ValidPairs(ups) && DistinctKeys(ups) && FirstIndex(ups, CONNECTOR) < 0
    ensures var close := NewClose(sql, b, ups);
            FoundAgain(b, close, BlockOf(sql, m), BlockOf(out, MovedMatch(b, close, m)))
  {
    if m.end > b.close {
      BehindAgain(sql, b, ups, out, m);
    } else if SpanOf(sql, m.end) == Some((b.open, b.close)) {
      SameBlockAgain(sql, b, ups, out, m);
    } else {
      FrontAgain(sql, b, ups, out, m);
    }
  }

  lemma {:induction false} BlocksAgain(sql: string, b: WithBlock, ups: seq<Pair>, out: string, tables: seq<TableMatch>)
    requires InText(sql, b) && out == RewriteBlock(sql, b, ups)
    requires ValidPairs(ups) && DistinctKeys(ups) && FirstIndex(ups, CONNECTOR) < 0
    requires forall m :: m in tables ==> Separate(sql, b, m)
    ensures var close := NewClose(sql, b, ups);
            Blocks(out, MovedMatches(b, close, tables)) == MovedBlocks(b, close, Blocks(sql, tables))
  {
    if tables != [] {
      var close := NewClose(sql, b, ups);
      BlockAgain(sql, b, ups, out, tables[0]);
      BlocksAgain(sql, b, ups, out, tables[1..]);
      var moved := MovedMatches(b, close, tables);
      assert moved[1..] == MovedMatches(b, close, tables[1..]);
      if BlockOf(sql, tables[0]).Some? {
        var x, rest := BlockOf(sql, tables[0]).value, Blocks(sql, tables[1..]);
        assert ([x] + rest)[1..] == rest;
      }
    }
  }

  lemma {:induction false} MovedKafka(b: WithBlock, close: nat, blocks: seq<WithBlock>)
    ensures KafkaBlocks(MovedBlocks(b, close, blocks)) == MovedBlocks(b, close, KafkaBlocks(blocks))
  {
    if blocks != [] {
      MovedKafka(b, close, blocks[1..]);
      var moved := MovedBlocks(b, close, blocks);
      assert moved[1..] == MovedBlocks(b, close, blocks[1..]);
      var rest := KafkaBlocks(blocks[1..]);
      assert ([blocks[0]] + rest)[1..] == rest;
    }
  }

  lemma {:induction false} MovedNamed(b: WithBlock, close: nat, blocks: seq<WithBlock>, table: string)
    ensures FirstNamed(MovedBlocks(b, close, blocks), table)
            == if FirstNamed(blocks, table).None? then None
               else Some(MovedBlock(b, close, FirstNamed(blocks, table).value))
  {
    if blocks != [] {
      MovedNamed(b, close, blocks[1..], table);
      var moved := MovedBlocks(b, close, blocks);
      assert moved[1..] == MovedBlocks(b, close, blocks[1..]);
    }
  }

  lemma {:induction false} MovedCount(b: WithBlock, close: nat, blocks: seq<WithBlock>)
    ensures |MovedBlocks(b, close, blocks)| == |blocks|
  {
    if blocks != [] {
      MovedCount(b, close, blocks[1..]);
    }
  }

  /** The same block is selected. */
  lemma TargetAgain(b: WithBlock, close: nat, blocks: seq<WithBlock>, sourceTable: string)
    requires Target(blocks, sourceTable).Ok?
    ensures Target(MovedBlocks(b, close, blocks), sourceTable)
            == Ok(MovedBlock(b, close, Target(blocks, sourceTable).value))
  {
    MovedKafka(b, close, blocks);
    MovedNamed(b, close, KafkaBlocks(blocks), sourceTable);
    MovedCount(b, close, KafkaBlocks(blocks));
  }

  /** The whole rewrite is idempotent: run on its own result, with the CREATE TABLE matches where they
      are now, it selects the same table and returns the same text. */
  lemma RewriteIdempotent(sql: string, tables: seq<TableMatch>, sourceTable: string, millis: int,
                          autoOffsetReset: string, b: WithBlock)
    requires WellQuoted(autoOffsetReset) && Target(Blocks(sql, tables), sourceTable) == Ok(b)
    requires forall m :: m in tables ==> Separate(sql, b, m)
    ensures var r := Rewrite(sql, tables, sourceTable, millis, autoOffsetReset);
            && r.Ok? && InText(sql, b)
            && var close := NewClose(sql, b, Startup(millis, autoOffsetReset));
               Rewrite(r.value.0, MovedMatches(b, close, tables), sourceTable, millis, autoOffsetReset) == r
  {
    var t :| t in tables && BlockOf(sql, t) == Some(b);
    var ups := Startup(millis, autoOffsetReset);
    var out, close := RewriteBlock(sql, b, ups), NewClose(sql, b, ups);
    StartupIsValid(millis, autoOffsetReset);
    BlocksAgain(sql, b, ups, out, tables);
    TargetAgain(b, close, Blocks(sql, tables), sourceTable);
    ResultAgain(sql, t, ups);
  }

  lemma ResultAgain(sql: string, t: TableMatch, ups: seq<Pair>)
    requires BlockOf(sql, t).Some? && ValidPairs(ups) && DistinctKeys(ups)
    ensures var b := BlockOf(sql, t).value;
            var out, b' := RewriteBlock(sql, b, ups), MovedBlock(b, NewClose(sql, b, ups), b);
            InText(out, b') && RewriteBlock(out, b', ups) == out
  {
    var b := BlockOf(sql, t).value;
    var out := RewriteBlock(sql, b, ups);
    RewriteBlockIdempotent(sql, t, ups);
    Reclosed(sql, t, ups);
    SameSpan(out, BlockOf(out, t).value, MovedBlock(b, NewClose(sql, b, ups), b), ups);
  }

  // ---------- a key that occurs twice ----------

  /** A block body that sets the startup mode twice. */
  function TwoModes(first: string, second: string): string {
    Print("  ", [Pair(SCAN_STARTUP_MODE, first), Pair(SCAN_STARTUP_MODE, second)])
  }

  /** Of two pairs with one key the second is updated and the first is read. */
  lemma UpsertAfterTwo(key: string, first: string, second: string, ups: seq<Pair>)
    requires DistinctKeys(ups)
    ensures ValueOf(Upsert([Pair(key, first), Pair(key, second)], ups), key) == first
  {
    var pairs := [Pair(key, first), Pair(key, second)];
    assert pairs[0].key == key && pairs[1].key == key;
    assert LastIndex(pairs, key) == 1;
    UpsertMeaning(pairs, ups);
    assert Updated(pairs, ups)[0] == pairs[0];
  }

  lemma BodyAfterTwo(key: string, first: string, second: string, ups: seq<Pair>)
    requires ValidPair(Pair(key, first)) && ValidPair(Pair(key, second)) && ValidPairs(ups) && DistinctKeys(ups)
    ensures var body := Print("  ", [Pair(key, first), Pair(key, second)]);
            && ParseBody(body) == [Pair(key, first), Pair(key, second)]
            && ValueOf(ParseBody(UpsertBody(body, ups)), key) == first
  {
    var pairs := [Pair(key, first), Pair(key, second)];
    PrintParseRoundTrip("  ", pairs);
    RewrittenPairs(Print("  ", pairs), ups);
    UpsertAfterTwo(key, first, second, ups);
  }

  /** A body in which the rewrite does not take: the startup mode is set twice, and whatever the
      rewrite puts there, the first of the two values is still the one that is read. */
  lemma DuplicateDefeatsRewrite(first: string, second: string, millis: int, autoOffsetReset: string)
    requires WellQuoted(first) && WellQuoted(second) && WellQuoted(autoOffsetReset)
    ensures var body := TwoModes(first, second);
            && ParseBody(body) == [Pair(SCAN_STARTUP_MODE, first), Pair(SCAN_STARTUP_MODE, second)]
            && ValueOf(ParseBody(UpsertBody(body, Startup(millis, autoOffsetReset))), SCAN_STARTUP_MODE) == first
  {
    StartupIsValid(millis, autoOffsetReset);
    StartupKeys();
    BodyAfterTwo(SCAN_STARTUP_MODE, first, second, Startup(millis, autoOffsetReset));
  }

  // ---------- a job with one Kafka source ----------

  const SOURCE := TableMatch("t", 14)

  function SourcePairs(topic: string): seq<Pair> {
    [Pair(CONNECTOR, "kafka"), Pair("topic", topic)]
  }

  /** SQL text that creates one table, `t`; its CREATE TABLE match is `SOURCE`. */
  function SourceSql(topic: string): string {
    "CREATE TABLE t WITH (" + Print("  ", SourcePairs(topic)) + ")"
  }

  lemma OpenOfSource(s: string)
    requires |s| > 20 && s[..21] == "CREATE TABLE t WITH ("
    ensures FindOpen(s, 14) == 20
  {
    assert s[14] == s[..21][14] == ' ';
    assert s[15] == s[..21][15] == 'W' && s[16] == s[..21][16] == 'I';
    assert s[17] == s[..21][17] == 'T' && s[18] == s[..21][18] == 'H';
    assert s[19] == s[..21][19] == ' ' && s[20] == s[..21][20] == '(';
    assert Upper('W') == 'W' && Upper('I') == 'I' && Upper('T') == 'T' && Upper('H') == 'H';
    assert WithAt(s, 15);
    assert SkipSpaces(s, 19) == 20;
    assert SearchStep(s, 15) == Found(20);
    assert SearchStep(s, 14) == Continue(15);
  }

  lemma SourcePairsAreValid(topic: string)
    requires WellQuoted(topic)
    ensures ValidPairs(SourcePairs(topic)) && ValueOf(SourcePairs(topic), CONNECTOR) == "kafka"
  {
    var kafka, name := "kafka", "topic";
    assert QuoteFree(kafka) && QuoteFree(name) && QuoteFree(CONNECTOR);
    QuoteFreeIsWellQuoted(kafka);
    assert SourcePairs(topic)[0].key == CONNECTOR;
  }

  lemma SourceParts(topic: string)
    ensures var s, body := SourceSql(topic), Print("  ", SourcePairs(topic));
            && |s| == 22 + |body| && s[..21] == "CREATE TABLE t WITH (" && s[20] == '('
            && s[21..21 + |body|] == body && s[21 + |body|] == ')'
  {
  }

  lemma SourceSpan(topic: string)
    requires WellQuoted(topic)
    ensures var s, body := SourceSql(topic), Print("  ", SourcePairs(topic));
            && FindOpen(s, 14) == 20 && MatchFrom(s, 20, 0) == 21 + |body|
            && 20 < 21 + |body| < |s| && s[21..21 + |body|] == body
  {
    SourceParts(topic);
    SourcePairsAreValid(topic);
    OpenOfSource(SourceSql(topic));
    RescanFindsClose(SourceSql(topic), 20, "  ", SourcePairs(topic));
  }

  lemma SourceParses(topic: string)
    requires WellQuoted(topic)
    ensures ParseBody(Print("  ", SourcePairs(topic))) == SourcePairs(topic)
  {
    SourcePairsAreValid(topic);
    PrintParseRoundTrip("  ", SourcePairs(topic));
  }

  lemma SourceBlock(topic: string)
    requires WellQuoted(topic)
    ensures BlockOf(SourceSql(topic), SOURCE)
            == Some(WithBlock("t", "kafka", 20, 21 + |Print("  ", SourcePairs(topic))|))
  {
    var body := Print("  ", SourcePairs(topic));
    SourceSpan(topic);
    SourceParses(topic);
    SourcePairsAreValid(topic);
    BlockFrom(SourceSql(topic), SOURCE, 20, 21 + |body|, body);
  }

  lemma OneKafkaBlock(b: WithBlock)
    requires b.connector == "kafka"
    ensures Target([b], "") == Ok(b)
  {
    assert IsKafka(b.connector);
    assert [b][1..] == [];
    assert KafkaBlocks([]) == [];
    assert KafkaBlocks([b]) == [b];
  }

  lemma SourcesDiffer(topic: string, topic': string)
    requires WellQuoted(topic) && WellQuoted(topic') && SourceSql(topic) == SourceSql(topic')
    ensures topic == topic'
  {
    SourceParts(topic);
    SourceParts(topic');
    SourcePairsAreValid(topic);
    SourcePairsAreValid(topic');
    assert Print("  ", SourcePairs(topic)) == Print("  ", SourcePairs(topic'));
    PrintParseRoundTrip("  ", SourcePairs(topic));
    PrintParseRoundTrip("  ", SourcePairs(topic'));
    assert SourcePairs(topic)[1] == SourcePairs(topic')[1];
  }

  /** Such a job can be rewritten. */
  lemma SourceIsRewritten(topic: string, millis: int, autoOffsetReset: string)
    requires WellQuoted(topic)
    ensures Rewrite(SourceSql(topic), [SOURCE], "", millis, autoOffsetReset).Ok?
  {
    SourceBlock(topic);
    var b := BlockOf(SourceSql(topic), SOURCE).value;
    assert [SOURCE][1..] == [];
    assert Blocks(SourceSql(topic), [SOURCE]) == [b];
    OneKafkaBlock(b);
  }

  lemma BodyAt(sql: string, b: WithBlock, body: string)
    requires InText(sql, b) && b.close == b.open + 1 + |body| && sql[b.open + 1..b.open + 1 + |body|] == body
    ensures BodyOf(sql, b) == body
  {
  }

  lemma SourceBody(topic: string)
    requires WellQuoted(topic)
    ensures BlockOf(SourceSql(topic), SOURCE).Some?
    ensures ParseBody(BodyOf(SourceSql(topic), BlockOf(SourceSql(topic), SOURCE).value)) == SourcePairs(topic)
  {
    SourceBlock(topic);
    SourceParts(topic);
    SourceParses(topic);
    BodyAt(SourceSql(topic), BlockOf(SourceSql(topic), SOURCE).value, Print("  ", SourcePairs(topic)));
  }

  /** A rewrite of a block that sets no startup mode changes the text. */
  lemma RewriteChanges(sql: string, out: string, t: TableMatch, millis: int, autoOffsetReset: string)
    requires IsRewrite(sql, out, t, Startup(millis, autoOffsetReset))
    requires var before := ParseBody(BodyOf(sql, BlockOf(sql, t).value));
             AtMostOnce(before, SCAN_STARTUP_MODE) && ValueOf(before, SCAN_STARTUP_MODE) == ""
    ensures out != sql
  {
    StartupReadsBack(sql, out, t, millis, autoOffsetReset);
  }

  lemma NoModeInSource(topic: string, mode: string)
    requires |mode| == 17
    ensures AtMostOnce(SourcePairs(topic), mode) && ValueOf(SourcePairs(topic), mode) == ""
  {
    var connector, name := CONNECTOR, "topic";
    assert |connector| == 9 && |name| == 5;
  }

  /** ... and is not what it was: it has a startup mode now. */
  lemma SourceIsChanged(topic: string, millis: int, autoOffsetReset: string)
    requires WellQuoted(topic) && WellQuoted(autoOffsetReset)
    ensures Rewrite(SourceSql(topic), [SOURCE], "", millis, autoOffsetReset).Ok?
    ensures Rewrite(SourceSql(topic), [SOURCE], "", millis, autoOffsetReset).value.0 != SourceSql(topic)
  {
    var sql := SourceSql(topic);
    SourceIsRewritten(topic, millis, autoOffsetReset);
    var t := RewriteIsRight(sql, [SOURCE], "", millis, autoOffsetReset);
    SourceBody(topic);
    StartupKeys();
    NoModeInSource(topic, SCAN_STARTUP_MODE);
    RewriteChanges(sql, Rewrite(sql, [SOURCE], "", millis, autoOffsetReset).value.0, t, millis, autoOffsetReset);
  }
}
