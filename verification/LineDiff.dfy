/** The side-by-side line diff of the replay dialog (diffRows in
    frontend/components/replay-dialog.tsx): a longest-common-subsequence table, an edit script
    walked out of it, and rows in which each run of deletions and additions is paired up. */
module LineDiff {
  import opened Wrappers

  type Line = string

  // ---------- common subsequences ----------

  predicate IsSubsequence(c: seq<Line>, s: seq<Line>) {
    if c == [] then true
    else if s == [] then false
    else (c[0] == s[0] && IsSubsequence(c[1..], s[1..])) || IsSubsequence(c, s[1..])
  }

  /** The recurrence that fills the table. */
  function Lcs(a: seq<Line>, b: seq<Line>): nat {
    if a == [] || b == [] then 0
    else if a[0] == b[0] then Lcs(a[1..], b[1..]) + 1
    else Max(Lcs(a[1..], b), Lcs(a, b[1..]))
  }

  function Max(x: nat, y: nat): nat {
    if x >= y then x else y
  }

  lemma {:induction false} TailIsSubsequence(c: seq<Line>, s: seq<Line>)
    requires c != [] && IsSubsequence(c, s)
    ensures s != [] && IsSubsequence(c[1..], s[1..])
  {
    if !(c[0] == s[0] && IsSubsequence(c[1..], s[1..])) {
      TailIsSubsequence(c, s[1..]);
    }
  }

  /** No common subsequence is longer than `Lcs` says. */
  lemma {:induction false} LcsIsUpperBound(c: seq<Line>, a: seq<Line>, b: seq<Line>)
    requires IsSubsequence(c, a) && IsSubsequence(c, b)
    ensures |c| <= Lcs(a, b)
    decreases |a| + |b|
  {
    if c != [] {
      if a[0] == b[0] {
        if c[0] == a[0] {
          TailIsSubsequence(c, a);
          TailIsSubsequence(c, b);
          LcsIsUpperBound(c[1..], a[1..], b[1..]);
        } else {
          LcsIsUpperBound(c, a[1..], b[1..]);
        }
      } else if c[0] != a[0] {
        LcsIsUpperBound(c, a[1..], b);
      } else {
        LcsIsUpperBound(c, a, b[1..]);
      }
    }
  }

  // ---------- edit scripts ----------

  datatype Op = Eq(l: Line, r: Line) | Del(l: Line) | Add(r: Line)

  function Lefts(ops: seq<Op>): seq<Line> {
    if ops == [] then [] else if ops[0].Add? then Lefts(ops[1..]) else [ops[0].l] + Lefts(ops[1..])
  }

  function Rights(ops: seq<Op>): seq<Line> {
    if ops == [] then [] else if ops[0].Del? then Rights(ops[1..]) else [ops[0].r] + Rights(ops[1..])
  }

  function EqLines(ops: seq<Op>): seq<Line> {
    if ops == [] then [] else if ops[0].Eq? then [ops[0].l] + EqLines(ops[1..]) else EqLines(ops[1..])
  }

  /** Deletions plus additions. */
  function Edits(ops: seq<Op>): nat {
    if ops == [] then 0 else (if ops[0].Eq? then 0 else 1) + Edits(ops[1..])
  }

  predicate KeepsEqualLines(ops: seq<Op>) {
    forall i | 0 <= i < |ops| && ops[i].Eq? :: ops[i].l == ops[i].r
  }

  predicate OnlyChanges(ops: seq<Op>) {
    forall i | 0 <= i < |ops| :: !ops[i].Eq?
  }

  /** `ops` turns `a` into `b`, and keeps only lines that are equal. */
  predicate IsScript(ops: seq<Op>, a: seq<Line>, b: seq<Line>) {
    Lefts(ops) == a && Rights(ops) == b && KeepsEqualLines(ops)
  }

  lemma ConsOps(op: Op, rest: seq<Op>)
    ensures Lefts([op] + rest) == (if op.Add? then Lefts(rest) else [op.l] + Lefts(rest))
    ensures Rights([op] + rest) == (if op.Del? then Rights(rest) else [op.r] + Rights(rest))
    ensures EqLines([op] + rest) == (if op.Eq? then [op.l] + EqLines(rest) else EqLines(rest))
    ensures KeepsEqualLines(rest) && (op.Eq? ==> op.l == op.r) ==> KeepsEqualLines([op] + rest)
  {
    assert ([op] + rest)[1..] == rest;
  }

  lemma {:induction false} SplitLefts(x: seq<Op>, y: seq<Op>)
    ensures Lefts(x + y) == Lefts(x) + Lefts(y)
  {
    if x == [] {
      assert x + y == y;
    } else {
      assert (x + y)[1..] == x[1..] + y;
      SplitLefts(x[1..], y);
    }
  }

  lemma {:induction false} SplitRights(x: seq<Op>, y: seq<Op>)
    ensures Rights(x + y) == Rights(x) + Rights(y)
  {
    if x == [] {
      assert x + y == y;
    } else {
      assert (x + y)[1..] == x[1..] + y;
      SplitRights(x[1..], y);
    }
  }

  lemma {:induction false} SplitEqLines(x: seq<Op>, y: seq<Op>)
    ensures EqLines(x + y) == EqLines(x) + EqLines(y)
  {
    if x == [] {
      assert x + y == y;
    } else {
      assert (x + y)[1..] == x[1..] + y;
      SplitEqLines(x[1..], y);
    }
  }

  lemma SplitOps(x: seq<Op>, y: seq<Op>)
    ensures Lefts(x + y) == Lefts(x) + Lefts(y)
    ensures Rights(x + y) == Rights(x) + Rights(y)
    ensures EqLines(x + y) == EqLines(x) + EqLines(y)
  {
    SplitLefts(x, y);
    SplitRights(x, y);
    SplitEqLines(x, y);
  }

  lemma {:induction false} EditsAndEqs(ops: seq<Op>)
    ensures Edits(ops) + 2 * |EqLines(ops)| == |Lefts(ops)| + |Rights(ops)|
  {
    if ops != [] {
      EditsAndEqs(ops[1..]);
    }
  }

  /** The kept lines of a script are a common subsequence. */
  lemma {:induction false} EqLinesAreCommon(ops: seq<Op>, a: seq<Line>, b: seq<Line>)
    requires IsScript(ops, a, b)
    ensures IsSubsequence(EqLines(ops), a) && IsSubsequence(EqLines(ops), b)
  {
    if ops != [] {
      var op := ops[0];
      EqLinesAreCommon(ops[1..], Lefts(ops[1..]), Rights(ops[1..]));
      assert !op.Add? ==> a[1..] == Lefts(ops[1..]);
      assert !op.Del? ==> b[1..] == Rights(ops[1..]);
    }
  }

  lemma EqsAtMostLcs(ops: seq<Op>, a: seq<Line>, b: seq<Line>)
    requires IsScript(ops, a, b)
    ensures |EqLines(ops)| <= Lcs(a, b)
  {
    EqLinesAreCommon(ops, a, b);
    LcsIsUpperBound(EqLines(ops), a, b);
  }

  /** The script that the two walking loops emit: keep a common first line, else delete if that
      loses nothing, else add. */
  function Script(a: seq<Line>, b: seq<Line>): seq<Op>
    decreases |a| + |b|
  {
    if a == [] && b == [] then []
    else if a == [] then [Add(b[0])] + Script(a, b[1..])
    else if b == [] then [Del(a[0])] + Script(a[1..], b)
    else if a[0] == b[0] then [Eq(a[0], b[0])] + Script(a[1..], b[1..])
    else if Lcs(a[1..], b) >= Lcs(a, b[1..]) then [Del(a[0])] + Script(a[1..], b)
    else [Add(b[0])] + Script(a, b[1..])
  }

  lemma {:induction false} ScriptKeepsLcs(a: seq<Line>, b: seq<Line>)
    ensures IsScript(Script(a, b), a, b)
    ensures |EqLines(Script(a, b))| == Lcs(a, b)
    decreases |a| + |b|
  {
    if a == [] && b == [] {
    } else if a == [] {
      ScriptKeepsLcs(a, b[1..]);
      ConsOps(Add(b[0]), Script(a, b[1..]));
    } else if b == [] {
      ScriptKeepsLcs(a[1..], b);
      ConsOps(Del(a[0]), Script(a[1..], b));
    } else if a[0] == b[0] {
      ScriptKeepsLcs(a[1..], b[1..]);
      ConsOps(Eq(a[0], b[0]), Script(a[1..], b[1..]));
    } else if Lcs(a[1..], b) >= Lcs(a, b[1..]) {
      ScriptKeepsLcs(a[1..], b);
      ConsOps(Del(a[0]), Script(a[1..], b));
    } else {
      ScriptKeepsLcs(a, b[1..]);
      ConsOps(Add(b[0]), Script(a, b[1..]));
    }
  }

  /** `Lcs` is the length of a longest common subsequence: one of that length exists, and none is
      longer. */
  lemma LcsIsLongest(a: seq<Line>, b: seq<Line>) returns (longest: seq<Line>)
    ensures IsSubsequence(longest, a) && IsSubsequence(longest, b) && |longest| == Lcs(a, b)
    ensures forall c :: IsSubsequence(c, a) && IsSubsequence(c, b) ==> |c| <= |longest|
  {
    ScriptKeepsLcs(a, b);
    longest := EqLines(Script(a, b));
    EqLinesAreCommon(Script(a, b), a, b);
    forall c | IsSubsequence(c, a) && IsSubsequence(c, b)
      ensures |c| <= |longest|
    {
      LcsIsUpperBound(c, a, b);
    }
  }

  /** No script for the same lines has fewer deletions plus additions. */
  lemma ScriptIsMinimal(a: seq<Line>, b: seq<Line>, other: seq<Op>)
    requires IsScript(other, a, b)
    ensures IsScript(Script(a, b), a, b) && Edits(Script(a, b)) <= Edits(other)
  {
    ScriptKeepsLcs(a, b);
    EqsAtMostLcs(other, a, b);
    EditsAndEqs(other);
    EditsAndEqs(Script(a, b));
  }

  /** No script for the two texts has fewer deletions plus additions. */
  ghost predicate IsBest(ops: seq<Op>, a: seq<Line>, b: seq<Line>) {
    IsScript(ops, a, b) && forall other | IsScript(other, a, b) :: Edits(ops) <= Edits(other)
  }

  lemma ScriptIsBest(a: seq<Line>, b: seq<Line>)
    ensures IsBest(Script(a, b), a, b)
  {
    ScriptKeepsLcs(a, b);
    forall other | IsScript(other, a, b)
      ensures Edits(Script(a, b)) <= Edits(other)
    {
      ScriptIsMinimal(a, b, other);
    }
  }

  lemma BestDeletion(a: seq<Line>, b: seq<Line>, ops: seq<Op>)
    requires a != [] && b != [] && a[0] != b[0] && IsBest(ops, a, b) && ops != [] && ops[0] == Del(a[0])
    ensures Lcs(a[1..], b) >= Lcs(a, b[1..])
  {
    var rest := ops[1..];
    assert ops == [ops[0]] + rest;
    ConsOps(ops[0], rest);
    assert a == [a[0]] + Lefts(rest);
    EqsAtMostLcs(rest, a[1..], b);
    ScriptKeepsLcs(a, b);
    EditsAndEqs(ops);
    EditsAndEqs(Script(a, b));
  }

  /** Which of the best scripts it is: a common first line is kept; of two different ones the left one
      is deleted first if any best script begins that way, else the right one is added; and so on with
      what is left. */
  lemma ScriptPrefersDeletion(a: seq<Line>, b: seq<Line>)
    requires a != [] && b != []
    ensures a[0] == b[0] ==> Script(a, b) == [Eq(a[0], b[0])] + Script(a[1..], b[1..])
    ensures a[0] != b[0] ==>
              Script(a, b) == if exists ops :: IsBest(ops, a, b) && ops != [] && ops[0] == Del(a[0])
                              then [Del(a[0])] + Script(a[1..], b)
                              else [Add(b[0])] + Script(a, b[1..])
  {
    if a[0] != b[0] {
      ScriptIsBest(a, b);
      if ops :| IsBest(ops, a, b) && ops != [] && ops[0] == Del(a[0]) {
        BestDeletion(a, b, ops);
      }
    }
  }

  // ---------- what optimality says about a run of changes ----------

  function Dels(lines: seq<Line>): seq<Op> {
    seq(|lines|, i requires 0 <= i < |lines| => Del(lines[i]))
  }

  function Adds(lines: seq<Line>): seq<Op> {
    seq(|lines|, i requires 0 <= i < |lines| => Add(lines[i]))
  }

  lemma {:induction false} DelsOps(lines: seq<Line>)
    ensures Lefts(Dels(lines)) == lines && Rights(Dels(lines)) == [] && EqLines(Dels(lines)) == []
  {
    if lines != [] {
      assert Dels(lines)[1..] == Dels(lines[1..]);
      DelsOps(lines[1..]);
    }
  }

  lemma {:induction false} AddsOps(lines: seq<Line>)
    ensures Lefts(Adds(lines)) == [] && Rights(Adds(lines)) == lines && EqLines(Adds(lines)) == []
  {
    if lines != [] {
      assert Adds(lines)[1..] == Adds(lines[1..]);
      AddsOps(lines[1..]);
    }
  }

  /** A run of changes written as deletions followed by additions. */
  lemma ChangeOps(dels: seq<Line>, adds: seq<Line>)
    ensures Lefts(Dels(dels) + Adds(adds)) == dels
    ensures Rights(Dels(dels) + Adds(adds)) == adds
    ensures EqLines(Dels(dels) + Adds(adds)) == []
  {
    DelsOps(dels);
    AddsOps(adds);
    SplitOps(Dels(dels), Adds(adds));
  }

  /** The script that keeps `x`, which the run before it deleted and added. */
  function Repaired(pre: seq<Op>, d1: seq<Line>, a1: seq<Line>, x: Line, d2: seq<Line>, a2: seq<Line>,
                    post: seq<Op>): seq<Op> {
    ((pre + (Dels(d1) + Adds(a1))) + [Eq(x, x)]) + ((Dels(d2) + Adds(a2)) + post)
  }

  lemma RunAfter(pre: seq<Op>, dels: seq<Line>, adds: seq<Line>)
    ensures var ops := pre + (Dels(dels) + Adds(adds));
            Lefts(ops) == Lefts(pre) + dels && Rights(ops) == Rights(pre) + adds && |EqLines(ops)| == |EqLines(pre)|
  {
    ChangeOps(dels, adds);
    SplitOps(pre, Dels(dels) + Adds(adds));
  }

  lemma RunBefore(dels: seq<Line>, adds: seq<Line>, post: seq<Op>)
    ensures var ops := (Dels(dels) + Adds(adds)) + post;
            Lefts(ops) == dels + Lefts(post) && Rights(ops) == adds + Rights(post) && |EqLines(ops)| == |EqLines(post)|
  {
    ChangeOps(dels, adds);
    SplitOps(Dels(dels) + Adds(adds), post);
  }

  lemma KeepAfter(front: seq<Op>, x: Line)
    ensures var ops := front + [Eq(x, x)];
            Lefts(ops) == Lefts(front) + [x] && Rights(ops) == Rights(front) + [x]
              && |EqLines(ops)| == |EqLines(front)| + 1
  {
    ConsOps(Eq(x, x), []);
    assert [Eq(x, x)] + [] == [Eq(x, x)];
    SplitOps(front, [Eq(x, x)]);
  }

  lemma Join(front: seq<Op>, back: seq<Op>)
    ensures Lefts(front + back) == Lefts(front) + Lefts(back)
    ensures Rights(front + back) == Rights(front) + Rights(back)
    ensures |EqLines(front + back)| == |EqLines(front)| + |EqLines(back)|
  {
    SplitOps(front, back);
  }

  lemma RepairedKeepsOneMore(pre: seq<Op>, d1: seq<Line>, a1: seq<Line>, x: Line, d2: seq<Line>, a2: seq<Line>,
                             post: seq<Op>)
    ensures var ops := Repaired(pre, d1, a1, x, d2, a2, post);
            && Lefts(ops) == ((Lefts(pre) + d1) + [x]) + (d2 + Lefts(post))
            && Rights(ops) == ((Rights(pre) + a1) + [x]) + (a2 + Rights(post))
            && |EqLines(ops)| == |EqLines(pre)| + 1 + |EqLines(post)|
  {
    var front, back := pre + (Dels(d1) + Adds(a1)), (Dels(d2) + Adds(a2)) + post;
    RunAfter(pre, d1, a1);
    RunBefore(d2, a2, post);
    KeepAfter(front, x);
    Join(front + [Eq(x, x)], back);
  }

  /** Cutting a sequence around one of its elements. */
  lemma CutAround(pre: seq<Line>, mid: seq<Line>, post: seq<Line>, i: nat)
    requires i < |mid|
    ensures pre + mid + post == ((pre + mid[..i]) + [mid[i]]) + (mid[i + 1..] + post)
  {
  }

  lemma {:induction false} NoEqLines(ops: seq<Op>)
    requires OnlyChanges(ops)
    ensures EqLines(ops) == []
  {
    if ops != [] {
      NoEqLines(ops[1..]);
    }
  }

  lemma RepairKeepsEqualLines(pre: seq<Op>, run: seq<Op>, post: seq<Op>, d1: seq<Line>, a1: seq<Line>, x: Line,
                              d2: seq<Line>, a2: seq<Line>)
    requires KeepsEqualLines(pre + run + post)
    ensures KeepsEqualLines(Repaired(pre, d1, a1, x, d2, a2, post))
  {
    var ops := pre + run + post;
    assert forall i | 0 <= i < |pre| :: pre[i] == ops[i];
    assert forall i | 0 <= i < |post| :: post[i] == ops[|pre| + |run| + i];
    assert KeepsEqualLines(pre) && KeepsEqualLines(post);
  }

  /** In a script that keeps as many lines as possible, no run of changes deletes a line that it
      also adds. */
  lemma RunIsDisjoint(pre: seq<Op>, run: seq<Op>, post: seq<Op>, a: seq<Line>, b: seq<Line>, x: Line)
    requires IsScript(pre + run + post, a, b) && |EqLines(pre + run + post)| == Lcs(a, b)
    requires OnlyChanges(run)
    ensures !(x in Lefts(run) && x in Rights(run))
  {
    if x in Lefts(run) && x in Rights(run) {
      var i :| 0 <= i < |Lefts(run)| && Lefts(run)[i] == x;
      var j :| 0 <= j < |Rights(run)| && Rights(run)[j] == x;
      RunRepair(pre, run, post, a, b, i, j);
    }
  }

  lemma RunRepair(pre: seq<Op>, run: seq<Op>, post: seq<Op>, a: seq<Line>, b: seq<Line>, i: nat, j: nat)
    requires IsScript(pre + run + post, a, b) && OnlyChanges(run)
    requires i < |Lefts(run)| && j < |Rights(run)| && Lefts(run)[i] == Rights(run)[j]
    ensures |EqLines(pre + run + post)| < Lcs(a, b)
  {
    var d1, d2 := Lefts(run)[..i], Lefts(run)[i + 1..];
    var a1, a2 := Rights(run)[..j], Rights(run)[j + 1..];
    var x := Lefts(run)[i];
    Join(pre + run, post);
    Join(pre, run);
    NoEqLines(run);
    CutAround(Lefts(pre), Lefts(run), Lefts(post), i);
    CutAround(Rights(pre), Rights(run), Rights(post), j);
    RepairedKeepsOneMore(pre, d1, a1, x, d2, a2, post);
    RepairKeepsEqualLines(pre, run, post, d1, a1, x, d2, a2);
    EqsAtMostLcs(Repaired(pre, d1, a1, x, d2, a2, post), a, b);
  }

  // ---------- rows ----------

  datatype Kind = EqualRow | DelRow | AddRow | ModRow

  datatype Row = Row(left: Option<Line>, right: Option<Line>, kind: Kind)

  function LeftCells(rows: seq<Row>): seq<Line> {
    if rows == [] then [] else if rows[0].left.Some? then [rows[0].left.value] + LeftCells(rows[1..])
      else LeftCells(rows[1..])
  }

  function RightCells(rows: seq<Row>): seq<Line> {
    if rows == [] then [] else if rows[0].right.Some? then [rows[0].right.value] + RightCells(rows[1..])
      else RightCells(rows[1..])
  }

  function EqualRows(rows: seq<Row>): nat {
    if rows == [] then 0 else (if rows[0].kind.EqualRow? then 1 else 0) + EqualRows(rows[1..])
  }

  /** The kind says which cells are present. */
  predicate RowOk(row: Row) {
    match row.kind
    case EqualRow => row.left.Some? && row.left == row.right
    case ModRow => row.left.Some? && row.right.Some?
    case DelRow => row.left.Some? && row.right.None?
    case AddRow => row.left.None? && row.right.Some?
  }

  predicate RowsOk(rows: seq<Row>) {
    forall i | 0 <= i < |rows| :: RowOk(rows[i])
  }

  predicate ChangedRows(rows: seq<Row>) {
    forall i | 0 <= i < |rows| :: !rows[i].kind.EqualRow?
  }

  /** Between equal rows, replacements come first and are then followed by leftover deletions
      only or by leftover additions only. */
  predicate PairedUp(rows: seq<Row>) {
    forall i | 0 <= i < |rows| - 1 ::
      && (rows[i].kind.DelRow? ==> rows[i + 1].kind.DelRow? || rows[i + 1].kind.EqualRow?)
      && (rows[i].kind.AddRow? ==> rows[i + 1].kind.AddRow? || rows[i + 1].kind.EqualRow?)
  }

  function Pair(dels: seq<Line>, adds: seq<Line>): seq<Row>
    decreases |dels| + |adds|
  {
    if dels != [] && adds != [] then [Row(Some(dels[0]), Some(adds[0]), ModRow)] + Pair(dels[1..], adds[1..])
    else if dels != [] then [Row(Some(dels[0]), None, DelRow)] + Pair(dels[1..], adds)
    else if adds != [] then [Row(None, Some(adds[0]), AddRow)] + Pair(dels, adds[1..])
    else []
  }

  /** The length of the run of changes at the front. */
  function RunLength(ops: seq<Op>): (n: nat)
    ensures n <= |ops|
    ensures ops != [] && !ops[0].Eq? ==> n > 0
    ensures forall i :: 0 <= i < n ==> !ops[i].Eq?
    ensures n < |ops| ==> ops[n].Eq?
  {
    if ops == [] || ops[0].Eq? then 0 else 1 + RunLength(ops[1..])
  }

  function Coalesce(ops: seq<Op>): seq<Row>
    decreases |ops|
  {
    if ops == [] then []
    else if ops[0].Eq? then [Row(Some(ops[0].l), Some(ops[0].r), EqualRow)] + Coalesce(ops[1..])
    else
      var n := RunLength(ops);
      Pair(Lefts(ops[..n]), Rights(ops[..n])) + Coalesce(ops[n..])
  }

  lemma ConsRows(row: Row, rest: seq<Row>)
    ensures LeftCells([row] + rest) == (if row.left.Some? then [row.left.value] + LeftCells(rest) else LeftCells(rest))
    ensures RightCells([row] + rest)
            == (if row.right.Some? then [row.right.value] + RightCells(rest) else RightCells(rest))
    ensures EqualRows([row] + rest) == (if row.kind.EqualRow? then 1 else 0) + EqualRows(rest)
  {
    assert ([row] + rest)[1..] == rest;
  }

  lemma {:induction false} SplitRows(x: seq<Row>, y: seq<Row>)
    ensures LeftCells(x + y) == LeftCells(x) + LeftCells(y)
    ensures RightCells(x + y) == RightCells(x) + RightCells(y)
    ensures EqualRows(x + y) == EqualRows(x) + EqualRows(y)
  {
    if x == [] {
      assert x + y == y;
    } else {
      assert (x + y)[1..] == x[1..] + y;
      SplitRows(x[1..], y);
    }
  }

  lemma {:induction false} PairRows(dels: seq<Line>, adds: seq<Line>)
    ensures LeftCells(Pair(dels, adds)) == dels && RightCells(Pair(dels, adds)) == adds
    ensures EqualRows(Pair(dels, adds)) == 0
    ensures RowsOk(Pair(dels, adds)) && ChangedRows(Pair(dels, adds))
    ensures dels == [] ==> forall i :: 0 <= i < |Pair(dels, adds)| ==> Pair(dels, adds)[i].kind.AddRow?
    ensures adds == [] ==> forall i :: 0 <= i < |Pair(dels, adds)| ==> Pair(dels, adds)[i].kind.DelRow?
    ensures PairedUp(Pair(dels, adds))
    decreases |dels| + |adds|
  {
    if dels != [] && adds != [] {
      PairRows(dels[1..], adds[1..]);
      ConsRows(Row(Some(dels[0]), Some(adds[0]), ModRow), Pair(dels[1..], adds[1..]));
    } else if dels != [] {
      PairRows(dels[1..], adds);
      ConsRows(Row(Some(dels[0]), None, DelRow), Pair(dels[1..], adds));
    } else if adds != [] {
      PairRows(dels, adds[1..]);
      ConsRows(Row(None, Some(adds[0]), AddRow), Pair(dels, adds[1..]));
    }
  }

  /** What the rows of a script have in common with it. */
  predicate Shows(rows: seq<Row>, ops: seq<Op>) {
    && LeftCells(rows) == Lefts(ops) && RightCells(rows) == Rights(ops)
    && EqualRows(rows) == |EqLines(ops)|
  }

  /** The rows are well formed, and begin with an equal row if the script does. */
  predicate WellPaired(rows: seq<Row>, ops: seq<Op>) {
    && PairedUp(rows) && RowsOk(rows)
    && (ops != [] && ops[0].Eq? ==> rows != [] && rows[0].kind.EqualRow?)
  }

  /** The rows show both texts in order, and are equal exactly where the script keeps a line. */
  lemma {:induction false} CoalescedRows(ops: seq<Op>)
    requires KeepsEqualLines(ops)
    ensures Shows(Coalesce(ops), ops) && WellPaired(Coalesce(ops), ops)
    decreases |ops|
  {
    if ops == [] {
    } else if ops[0].Eq? {
      CoalescedRows(ops[1..]);
      EqInFront(ops, Coalesce(ops[1..]));
    } else {
      CoalescedRows(ops[RunLength(ops)..]);
      RunInFront(ops, RunLength(ops), Coalesce(ops[RunLength(ops)..]));
    }
  }

  /** One kept line in front of rows that are already right. */
  lemma EqInFront(ops: seq<Op>, rows: seq<Row>)
    requires ops != [] && ops[0].Eq? && ops[0].l == ops[0].r && Shows(rows, ops[1..]) && WellPaired(rows, ops[1..])
    ensures var rows' := [Row(Some(ops[0].l), Some(ops[0].r), EqualRow)] + rows;
            Shows(rows', ops) && WellPaired(rows', ops)
  {
    ConsRows(Row(Some(ops[0].l), Some(ops[0].r), EqualRow), rows);
  }

  /** One run of changes in front of rows that are already right. */
  lemma RunInFront(ops: seq<Op>, n: nat, rows: seq<Row>)
    requires 0 < n <= |ops| && OnlyChanges(ops[..n]) && (n < |ops| ==> ops[n].Eq?)
    requires Shows(rows, ops[n..]) && WellPaired(rows, ops[n..])
    ensures var rows' := Pair(Lefts(ops[..n]), Rights(ops[..n])) + rows;
            Shows(rows', ops) && WellPaired(rows', ops)
  {
    var run, rest := ops[..n], ops[n..];
    var pairs := Pair(Lefts(run), Rights(run));
    PairRows(Lefts(run), Rights(run));
    RunShows(run, rest, pairs, rows);
    PairsInFront(pairs, rows, rest);
    assert run + rest == ops;
    assert !ops[0].Eq? by { assert ops[0] == run[0]; }
  }

  lemma PairsInFront(pairs: seq<Row>, rows: seq<Row>, rest: seq<Op>)
    requires PairedUp(pairs) && RowsOk(pairs) && WellPaired(rows, rest) && (rest == [] ==> rows == [])
    requires rest != [] ==> rest[0].Eq?
    ensures PairedUp(pairs + rows) && RowsOk(pairs + rows)
  {
  }

  lemma RunShows(run: seq<Op>, rest: seq<Op>, pairs: seq<Row>, rows: seq<Row>)
    requires OnlyChanges(run) && Shows(rows, rest)
    requires LeftCells(pairs) == Lefts(run) && RightCells(pairs) == Rights(run) && EqualRows(pairs) == 0
    ensures Shows(pairs + rows, run + rest)
  {
    SplitRows(pairs, rows);
    SplitOps(run, rest);
    NoEqLines(run);
  }

  // ---------- rows as a script ----------

  /** The script that a reader of the rows sees. */
  function Unroll(rows: seq<Row>): seq<Op> {
    if rows == [] then [] else UnrollRow(rows[0]) + Unroll(rows[1..])
  }

  function UnrollRow(row: Row): seq<Op> {
    if row.left.Some? && row.right.Some? then
      if row.kind.EqualRow? then [Eq(row.left.value, row.right.value)] else [Del(row.left.value), Add(row.right.value)]
    else if row.left.Some? then [Del(row.left.value)]
    else if row.right.Some? then [Add(row.right.value)]
    else []
  }

  lemma {:induction false} UnrollSplit(x: seq<Row>, y: seq<Row>)
    ensures Unroll(x + y) == Unroll(x) + Unroll(y)
  {
    if x == [] {
      assert x + y == y;
    } else {
      assert (x + y)[1..] == x[1..] + y;
      UnrollSplit(x[1..], y);
    }
  }

  lemma UnrollRowCells(row: Row)
    requires RowOk(row)
    ensures Lefts(UnrollRow(row)) == LeftCells([row]) && Rights(UnrollRow(row)) == RightCells([row])
    ensures |EqLines(UnrollRow(row))| == EqualRows([row])
    ensures KeepsEqualLines(UnrollRow(row)) && (!row.kind.EqualRow? ==> OnlyChanges(UnrollRow(row)))
  {
    if row.kind.ModRow? {
      assert UnrollRow(row) == [Del(row.left.value)] + [Add(row.right.value)];
      SplitOps([Del(row.left.value)], [Add(row.right.value)]);
    }
  }

  lemma {:induction false} UnrollCells(rows: seq<Row>)
    requires RowsOk(rows)
    ensures var ops := Unroll(rows);
            && Lefts(ops) == LeftCells(rows) && Rights(ops) == RightCells(rows)
            && |EqLines(ops)| == EqualRows(rows)
            && KeepsEqualLines(ops)
            && (ChangedRows(rows) ==> OnlyChanges(ops))
  {
    if rows != [] {
      UnrollRowCells(rows[0]);
      UnrollCells(rows[1..]);
      SplitOps(UnrollRow(rows[0]), Unroll(rows[1..]));
    }
  }

  /** What a correct and optimal side-by-side view of `a` and `b` is. */
  ghost predicate IsDiff(rows: seq<Row>, a: seq<Line>, b: seq<Line>) {
    && LeftCells(rows) == a
    && RightCells(rows) == b
    && RowsOk(rows)
    && PairedUp(rows)
    && EqualRows(rows) == Lcs(a, b)
  }

  /** Between two equal rows of a diff no line is shown both as removed and as added; in
      particular no replacement pairs two identical lines. */
  lemma ChangedRowsAreDisjoint(rows: seq<Row>, a: seq<Line>, b: seq<Line>, p: nat, q: nat, x: Line)
    requires IsDiff(rows, a, b) && p <= q <= |rows|
    requires forall i :: p <= i < q ==> !rows[i].kind.EqualRow?
    ensures !(x in LeftCells(rows[p..q]) && x in RightCells(rows[p..q]))
  {
    var pre, run, post := rows[..p], rows[p..q], rows[q..];
    assert rows == (pre + run) + post;
    UnrollSplit(pre + run, post);
    UnrollSplit(pre, run);
    UnrollCells(rows);
    UnrollCells(run);
    RunIsDisjoint(Unroll(pre), Unroll(run), Unroll(post), a, b, x);
  }

  lemma ReplacementsDiffer(rows: seq<Row>, a: seq<Line>, b: seq<Line>, i: nat)
    requires IsDiff(rows, a, b) && i < |rows| && rows[i].kind.ModRow?
    ensures rows[i].left != rows[i].right
  {
    var run := rows[i..i + 1];
    assert RowOk(rows[i]);
    assert run == [rows[i]] + [];
    ConsRows(rows[i], []);
    ChangedRowsAreDisjoint(rows, a, b, i, i + 1, rows[i].left.value);
  }

  // ---------- the program ----------

  /** The recurrence, seen from positions in the two texts. */
  lemma LcsAt(a: seq<Line>, b: seq<Line>, i: nat, j: nat)
    requires i <= |a| && j <= |b|
    ensures Lcs(a[i..], b[j..]) ==
            if i == |a| || j == |b| then 0
            else if a[i] == b[j] then Lcs(a[i + 1..], b[j + 1..]) + 1
            else Max(Lcs(a[i + 1..], b[j..]), Lcs(a[i..], b[j + 1..]))
  {
    assert i < |a| ==> a[i..][1..] == a[i + 1..];
    assert j < |b| ==> b[j..][1..] == b[j + 1..];
  }

  /** Row `r` of the table is filled from column `from` on. */
  ghost predicate RowFilled(a: seq<Line>, b: seq<Line>, dp: array2<nat>, r: nat, from: nat)
    requires dp.Length0 == |a| + 1 && dp.Length1 == |b| + 1 && r <= |a|
    reads dp
  {
    forall c | from <= c <= |b| :: dp[r, c] == Lcs(a[r..], b[c..])
  }

  lemma LastRow(a: seq<Line>, b: seq<Line>)
    ensures forall c | 0 <= c <= |b| :: Lcs(a[|a|..], b[c..]) == 0
  {
    forall c | 0 <= c <= |b|
      ensures Lcs(a[|a|..], b[c..]) == 0
    {
      LcsAt(a, b, |a|, c);
    }
  }

  /** Fill one row from the right, given the row below it. */
  method FillRow(a: seq<Line>, b: seq<Line>, dp: array2<nat>, i: nat)
    requires dp.Length0 == |a| + 1 && dp.Length1 == |b| + 1 && i < |a|
    requires RowFilled(a, b, dp, i + 1, 0) && dp[i, |b|] == 0
    modifies dp
    ensures RowFilled(a, b, dp, i, 0)
    ensures forall r, c | 0 <= r <= |a| && 0 <= c <= |b| && r != i :: dp[r, c] == old(dp[r, c])
  {
    LcsAt(a, b, i, |b|);
    for j := |b| downto 0
      invariant RowFilled(a, b, dp, i, j)
      invariant forall r, c | 0 <= r <= |a| && 0 <= c <= |b| && r != i :: dp[r, c] == old(dp[r, c])
    {
      LcsAt(a, b, i, j);
      assert dp[i + 1, j] == Lcs(a[i + 1..], b[j..]) && dp[i + 1, j + 1] == Lcs(a[i + 1..], b[j + 1..]);
      dp[i, j] := if a[i] == b[j] then dp[i + 1, j + 1] + 1 else Max(dp[i + 1, j], dp[i, j + 1]);
    }
  }

  /** Fill the table from the bottom right corner. */
  method FillTable(a: seq<Line>, b: seq<Line>) returns (dp: array2<nat>)
    ensures fresh(dp) && dp.Length0 == |a| + 1 && dp.Length1 == |b| + 1
    ensures forall i, j :: 0 <= i <= |a| && 0 <= j <= |b| ==> dp[i, j] == Lcs(a[i..], b[j..])
  {
    var n, m := |a|, |b|;
    dp := new nat[n + 1, m + 1]((_, _) => 0);
    LastRow(a, b);
    for i := n downto 0
      invariant forall r, c :: i <= r <= n && 0 <= c <= m ==> dp[r, c] == Lcs(a[r..], b[c..])
      invariant forall r | 0 <= r < i :: dp[r, m] == 0
    {
      FillRow(a, b, dp, i);
    }
  }

  /** The next op of the script, seen from positions in the two texts, and the positions after it. */
  function NextOp(a: seq<Line>, b: seq<Line>, i: nat, j: nat): (r: (Op, nat, nat))
    requires i <= |a| && j <= |b| && (i < |a| || j < |b|)
    ensures r.1 <= |a| && r.2 <= |b|
  {
    if j == |b| then (Del(a[i]), i + 1, j)
    else if i == |a| then (Add(b[j]), i, j + 1)
    else if a[i] == b[j] then (Eq(a[i], b[j]), i + 1, j + 1)
    else if Lcs(a[i + 1..], b[j..]) >= Lcs(a[i..], b[j + 1..]) then (Del(a[i]), i + 1, j)
    else (Add(b[j]), i, j + 1)
  }

  lemma ScriptAt(a: seq<Line>, b: seq<Line>, i: nat, j: nat)
    requires i <= |a| && j <= |b| && (i < |a| || j < |b|)
    ensures var (op, i', j') := NextOp(a, b, i, j);
            Script(a[i..], b[j..]) == [op] + Script(a[i'..], b[j'..])
  {
    assert i < |a| ==> a[i..][1..] == a[i + 1..];
    assert j < |b| ==> b[j..][1..] == b[j + 1..];
  }

  /** One more op has been emitted. */
  lemma Emit(a: seq<Line>, b: seq<Line>, i: nat, j: nat, ops: seq<Op>)
    requires i <= |a| && j <= |b| && (i < |a| || j < |b|)
    ensures var (op, i', j') := NextOp(a, b, i, j);
            ops + Script(a[i..], b[j..]) == (ops + [op]) + Script(a[i'..], b[j'..])
  {
    var (op, i', j') := NextOp(a, b, i, j);
    ScriptAt(a, b, i, j);
    Assoc(ops, [op], Script(a[i'..], b[j'..]));
  }

  lemma NothingLeft(a: seq<Line>, b: seq<Line>)
    ensures Script(a[|a|..], b[|b|..]) == []
  {
    assert a[|a|..] == [] && b[|b|..] == [];
  }

  /** Walk the table from the top left corner. */
  method WalkTable(a: seq<Line>, b: seq<Line>, dp: array2<nat>) returns (ops: seq<Op>)
    requires dp.Length0 == |a| + 1 && dp.Length1 == |b| + 1
    requires forall i, j :: 0 <= i <= |a| && 0 <= j <= |b| ==> dp[i, j] == Lcs(a[i..], b[j..])
    ensures ops == Script(a, b)
  {
    var i, j := 0, 0;
    ops := [];
    assert a[0..] == a && b[0..] == b;
    while i < |a| && j < |b|
      invariant i <= |a| && j <= |b|
      invariant Script(a, b) == ops + Script(a[i..], b[j..])
      decreases |a| - i + |b| - j
    {
      Emit(a, b, i, j, ops);
      if a[i] == b[j] {
        ops := ops + [Eq(a[i], b[j])];
        i, j := i + 1, j + 1;
      } else if dp[i + 1, j] >= dp[i, j + 1] {
        ops := ops + [Del(a[i])];
        i := i + 1;
      } else {
        ops := ops + [Add(b[j])];
        j := j + 1;
      }
    }
    ops := Drain(a, b, i, j, ops);
  }

  /** The two loops that take what is left of one text. */
  method Drain(a: seq<Line>, b: seq<Line>, start: nat, start': nat, sofar: seq<Op>) returns (ops: seq<Op>)
    requires start <= |a| && start' <= |b| && (start == |a| || start' == |b|)
    ensures ops == sofar + Script(a[start..], b[start'..])
  {
    var i, j := start, start';
    ops := sofar;
    while i < |a|
      invariant i <= |a| && j <= |b| && (i < |a| ==> j == |b|)
      invariant sofar + Script(a[start..], b[start'..]) == ops + Script(a[i..], b[j..])
    {
      Emit(a, b, i, j, ops);
      ops := ops + [Del(a[i])];
      i := i + 1;
    }
    while j < |b|
      invariant i == |a| && j <= |b|
      invariant sofar + Script(a[start..], b[start'..]) == ops + Script(a[i..], b[j..])
    {
      Emit(a, b, i, j, ops);
      ops := ops + [Add(b[j])];
      j := j + 1;
    }
    NothingLeft(a, b);
  }

  /** The lines from index `x` on, none if there are no more. */
  function From(lines: seq<Line>, x: nat): seq<Line> {
    if x <= |lines| then lines[x..] else []
  }

  /** Pair up the collected deletions and additions of one run. */
  method PairRun(rows: seq<Row>, dels: seq<Line>, adds: seq<Line>) returns (rows': seq<Row>)
    ensures rows' == rows + Pair(dels, adds)
  {
    rows' := rows;
    for x := 0 to Max(|dels|, |adds|)
      invariant rows' + Pair(From(dels, x), From(adds, x)) == rows + Pair(dels, adds)
    {
      assert x < |dels| ==> dels[x..][1..] == dels[x + 1..];
      assert x < |adds| ==> adds[x..][1..] == adds[x + 1..];
      if x < |dels| && x < |adds| {
        rows' := rows' + [Row(Some(dels[x]), Some(adds[x]), ModRow)];
      } else if x < |dels| {
        rows' := rows' + [Row(Some(dels[x]), None, DelRow)];
      } else {
        rows' := rows' + [Row(None, Some(adds[x]), AddRow)];
      }
    }
  }

  /** One more change in a run that begins at `start`. */
  lemma RunGrows(ops: seq<Op>, start: nat, k: nat)
    requires start <= k < |ops| && !ops[k].Eq?
    ensures Lefts(ops[start..k + 1])
            == (if ops[k].Del? then Lefts(ops[start..k]) + [ops[k].l] else Lefts(ops[start..k]))
    ensures Rights(ops[start..k + 1])
            == (if ops[k].Del? then Rights(ops[start..k]) else Rights(ops[start..k]) + [ops[k].r])
  {
    assert ops[start..k + 1] == ops[start..k] + [ops[k]];
    SplitOps(ops[start..k], [ops[k]]);
  }

  lemma RunBegins(ops: seq<Op>, start: nat)
    requires start <= |ops|
    ensures Lefts(ops[start..start]) == [] && Rights(ops[start..start]) == []
  {
  }

  /** The changes from `start` up to a kept line, or up to the end, are the whole run. */
  lemma {:induction false} RunEnds(ops: seq<Op>, start: nat, k: nat)
    requires start <= k <= |ops| && (forall x | start <= x < k :: !ops[x].Eq?) && (k == |ops| || ops[k].Eq?)
    ensures RunLength(ops[start..]) == k - start
    decreases k - start
  {
    if start < k {
      RunEnds(ops, start + 1, k);
      assert ops[start..][1..] == ops[start + 1..];
    }
  }

  /** Collect the run of changes that starts at `start`. */
  method CollectRun(ops: seq<Op>, start: nat) returns (k: nat, dels: seq<Line>, adds: seq<Line>)
    requires start < |ops| && !ops[start].Eq?
    ensures k == start + RunLength(ops[start..]) && start < k <= |ops|
    ensures dels == Lefts(ops[start..k]) && adds == Rights(ops[start..k])
  {
    k, dels, adds := start, [], [];
    RunBegins(ops, start);
    while k < |ops| && !ops[k].Eq?
      invariant start <= k <= |ops| && forall x | start <= x < k :: !ops[x].Eq?
      invariant dels == Lefts(ops[start..k]) && adds == Rights(ops[start..k])
    {
      RunGrows(ops, start, k);
      if ops[k].Del? {
        dels := dels + [ops[k].l];
      } else {
        adds := adds + [ops[k].r];
      }
      k := k + 1;
    }
    RunEnds(ops, start, k);
  }

  /** The next rows, seen from a position in the script. */
  lemma CoalesceAt(ops: seq<Op>, k: nat)
    requires k < |ops|
    ensures Coalesce(ops[k..]) ==
            if ops[k].Eq? then [Row(Some(ops[k].l), Some(ops[k].r), EqualRow)] + Coalesce(ops[k + 1..])
            else
              var end := k + RunLength(ops[k..]);
              Pair(Lefts(ops[k..end]), Rights(ops[k..end])) + Coalesce(ops[end..])
  {
    var rest, n := ops[k..], RunLength(ops[k..]);
    assert rest[1..] == ops[k + 1..];
    assert rest[..n] == ops[k..k + n] && rest[n..] == ops[k + n..];
  }

  method CoalesceRuns(ops: seq<Op>) returns (rows: seq<Row>)
    ensures rows == Coalesce(ops)
  {
    rows := [];
    var k := 0;
    assert ops[0..] == ops;
    while k < |ops|
      invariant k <= |ops|
      invariant Coalesce(ops) == rows + Coalesce(ops[k..])
    {
      CoalesceAt(ops, k);
      if ops[k].Eq? {
        Assoc(rows, [Row(Some(ops[k].l), Some(ops[k].r), EqualRow)], Coalesce(ops[k + 1..]));
        rows := rows + [Row(Some(ops[k].l), Some(ops[k].r), EqualRow)];
        k := k + 1;
      } else {
        var dels, adds;
        k, dels, adds := CollectRun(ops, k);
        Assoc(rows, Pair(dels, adds), Coalesce(ops[k..]));
        rows := PairRun(rows, dels, adds);
      }
    }
  }

  /** The diff shown to the user: faithful to both texts, paired up, and with as many equal rows
      as a longest common subsequence has lines. */
  method DiffRows(a: seq<Line>, b: seq<Line>) returns (rows: seq<Row>)
    ensures rows == Coalesce(Script(a, b))
    ensures IsDiff(rows, a, b)
  {
    var dp := FillTable(a, b);
    var ops := WalkTable(a, b, dp);
    rows := CoalesceRuns(ops);
    ScriptKeepsLcs(a, b);
    CoalescedRows(ops);
  }
}
