/** The input of the secret hash (hashData in internal/secretsync/syncer.go): the keys of a map in
    byte order, each key and each value followed by a NUL. */
module SecretHash {
  import opened Wrappers

  const NUL: char := '\0'

  // ---------- strings in byte order ----------

  /** The order of sort.Strings; on UTF-8 text it is the order of the code points. */
  predicate Leq(a: string, b: string) {
    if a == "" then true
    else if b == "" then false
    else a[0] < b[0] || (a[0] == b[0] && Leq(a[1..], b[1..]))
  }

  lemma {:induction false} LeqTotal(a: string, b: string)
    ensures Leq(a, b) || Leq(b, a)
    ensures Leq(a, b) && Leq(b, a) ==> a == b
  {
    if a != "" && b != "" && a[0] == b[0] {
      LeqTotal(a[1..], b[1..]);
      assert a == [a[0]] + a[1..] && b == [b[0]] + b[1..];
    }
  }

  lemma {:induction false} LeqTransitive(a: string, b: string, c: string)
    requires Leq(a, b) && Leq(b, c)
    ensures Leq(a, c)
  {
    if a != "" && a[0] == b[0] && b[0] == c[0] {
      LeqTransitive(a[1..], b[1..], c[1..]);
    }
  }

  /** `a` comes first: it is a prefix of `b`, or at the first difference its character is the smaller. */
  ghost predicate ComesFirst(a: string, b: string) {
    || (|a| <= |b| && b[..|a|] == a)
    || exists i: nat :: i < |a| && i < |b| && a[..i] == b[..i] && a[i] < b[i]
  }

  lemma SameHead(a: string, b: string)
    requires a != "" && b != "" && a[0] == b[0]
    ensures ComesFirst(a, b) <==> ComesFirst(a[1..], b[1..])
  {
    var a', b' := a[1..], b[1..];
    if |a| <= |b| {
      assert b[..|a|] == [b[0]] + b'[..|a'|] && a == [a[0]] + a';
      assert b[..|a|] == a ==> b'[..|a'|] == b[..|a|][1..] == a[1..];
    }
    if i: nat :| i < |a'| && i < |b'| && a'[..i] == b'[..i] && a'[i] < b'[i] {
      assert a[..i + 1] == [a[0]] + a'[..i] && b[..i + 1] == [b[0]] + b'[..i];
    }
    if i: nat :| i < |a| && i < |b| && a[..i] == b[..i] && a[i] < b[i] {
      assert i > 0;
      assert a'[..i - 1] == a[..i][1..] && b'[..i - 1] == b[..i][1..];
      assert a'[i - 1] < b'[i - 1];
    }
  }

  lemma {:induction false} LeqIsByteOrder(a: string, b: string)
    ensures Leq(a, b) <==> ComesFirst(a, b)
  {
    if a != "" && b != "" && a[0] == b[0] {
      SameHead(a, b);
      LeqIsByteOrder(a[1..], b[1..]);
    } else if a != "" && b != "" {
      assert forall i: nat | 0 < i < |a| && i < |b| :: a[..i][0] != b[..i][0];
      if a[0] < b[0] {
        assert a[..0] == b[..0];
      }
      assert |a| <= |b| ==> b[..|a|][0] == b[0];
    }
  }

  predicate Sorted(keys: seq<string>) {
    forall i, j | 0 <= i < j < |keys| :: Leq(keys[i], keys[j])
  }

  function Insert(keys: seq<string>, x: string): seq<string> {
    if keys == [] then [x]
    else if Leq(x, keys[0]) then [x] + keys
    else [keys[0]] + Insert(keys[1..], x)
  }

  /** A list in order is a first string and a list in order of strings that do not come before it. */
  lemma SortedParts(head: string, rest: seq<string>)
    ensures Sorted([head] + rest) <==> Sorted(rest) && forall k :: k in rest ==> Leq(head, k)
  {
    var keys := [head] + rest;
    if Sorted(keys) {
      forall i, j | 0 <= i < j < |rest|
        ensures Leq(rest[i], rest[j])
      {
        assert keys[i + 1] == rest[i] && keys[j + 1] == rest[j];
      }
      forall k | k in rest
        ensures Leq(head, k)
      {
        var i :| 0 <= i < |rest| && rest[i] == k;
        assert keys[0] == head && keys[i + 1] == k;
      }
    }
    if Sorted(rest) && forall k :: k in rest ==> Leq(head, k) {
      forall i, j | 0 <= i < j < |keys|
        ensures Leq(keys[i], keys[j])
      {
        assert keys[j] == rest[j - 1] && rest[j - 1] in rest;
        assert i > 0 ==> keys[i] == rest[i - 1];
      }
    }
  }

  lemma DistinctParts(head: string, rest: seq<string>)
    ensures NoDuplicates([head] + rest) <==> NoDuplicates(rest) && head !in rest
  {
    var keys := [head] + rest;
    if NoDuplicates(keys) {
      forall i, j | 0 <= i < j < |rest|
        ensures rest[i] != rest[j]
      {
        assert keys[i + 1] == rest[i] && keys[j + 1] == rest[j];
      }
      forall i | 0 <= i < |rest|
        ensures rest[i] != head
      {
        assert keys[0] == head && keys[i + 1] == rest[i];
      }
    }
  }

  lemma {:induction false} InsertKeeps(keys: seq<string>, x: string)
    requires Sorted(keys)
    ensures Sorted(Insert(keys, x))
    ensures forall k :: k in Insert(keys, x) <==> k == x || k in keys
    ensures NoDuplicates(keys) && x !in keys ==> NoDuplicates(Insert(keys, x))
  {
    if keys != [] {
      var head, rest := keys[0], keys[1..];
      assert keys == [head] + rest;
      SortedParts(head, rest);
      DistinctParts(head, rest);
      if Leq(x, head) {
        forall k | k in keys
          ensures Leq(x, k)
        {
          if k != head {
            LeqTransitive(x, head, k);
          }
        }
        SortedParts(x, keys);
        DistinctParts(x, keys);
      } else {
        LeqTotal(x, head);
        InsertKeeps(rest, x);
        SortedParts(head, Insert(rest, x));
        DistinctParts(head, Insert(rest, x));
      }
    }
  }

  /** sort.Strings on a list without duplicates. */
  method SortStrings(keys: seq<string>) returns (r: seq<string>)
    requires NoDuplicates(keys)
    ensures Sorted(r) && NoDuplicates(r)
    ensures forall k :: k in r <==> k in keys
  {
    r := [];
    for i := 0 to |keys|
      invariant Sorted(r) && NoDuplicates(r)
      invariant forall k :: k in r <==> k in keys[..i]
    {
      InsertKeeps(r, keys[i]);
      assert keys[i] !in keys[..i];
      assert keys[..i + 1] == keys[..i] + [keys[i]];
      r := Insert(r, keys[i]);
    }
    assert keys[..|keys|] == keys;
  }

  // ---------- the keys of a map, in order ----------

  /** `keys` lists exactly the strings of `s`, in order and once each. */
  ghost predicate IsKeyList(keys: seq<string>, s: set<string>) {
    Sorted(keys) && NoDuplicates(keys) && forall k :: k in keys <==> k in s
  }

  lemma {:induction false} KeyListUnique(a: seq<string>, b: seq<string>, s: set<string>)
    requires IsKeyList(a, s) && IsKeyList(b, s)
    ensures a == b
    decreases |a|
  {
    forall i | 0 <= i < |b|
      ensures b[i] in a
    {
      assert b[i] in b;
      assert b[i] in s;
    }
    assert |b| > 0 ==> b[0] in a;
    if a != [] {
      assert a[0] in b;
      var i :| 0 <= i < |b| && b[i] == a[0];
      assert b[0] in a;
      var j :| 0 <= j < |a| && a[j] == b[0];
      if i > 0 && j > 0 {
        LeqTotal(a[0], b[0]);
      }
      assert a[0] == b[0];
      TailKeyList(a, s);
      TailKeyList(b, s);
      KeyListUnique(a[1..], b[1..], s - {a[0]});
    }
  }

  lemma TailKeyList(keys: seq<string>, s: set<string>)
    requires IsKeyList(keys, s) && keys != []
    ensures IsKeyList(keys[1..], s - {keys[0]})
  {
    assert keys == [keys[0]] + keys[1..];
    assert forall i :: 0 <= i < |keys[1..]| ==> keys[1..][i] == keys[i + 1];
  }

  ghost function KeyList(s: set<string>): (keys: seq<string>)
    ensures IsKeyList(keys, s)
  {
    if s == {} then []
    else
      var x :| x in s;
      InsertKeeps(KeyList(s - {x}), x);
      Insert(KeyList(s - {x}), x)
  }

  function Serialize(keys: seq<string>, data: map<string, string>): string
    requires forall k :: k in keys ==> k in data
  {
    if keys == [] then "" else keys[0] + [NUL] + data[keys[0]] + [NUL] + Serialize(keys[1..], data)
  }

  ghost function HashInput(data: map<string, string>): string {
    Serialize(KeyList(data.Keys), data)
  }

  method CollectKeys(data: map<string, string>) returns (keys: seq<string>)
    ensures NoDuplicates(keys) && forall k :: k in keys <==> k in data
  {
    keys := [];
    var rest := data.Keys;
    while rest != {}
      invariant rest <= data.Keys && NoDuplicates(keys)
      invariant forall k :: k in keys <==> k in data && k !in rest
      decreases |rest|
    {
      var k :| k in rest;
      keys := keys + [k];
      rest := rest - {k};
    }
  }

  /** In whatever order the map is walked, the hashed text depends on its contents only. */
  method HashText(data: map<string, string>) returns (text: string)
    ensures text == HashInput(data)
  {
    var keys := CollectKeys(data);
    keys := SortStrings(keys);
    KeyListUnique(keys, KeyList(data.Keys), data.Keys);
    text := "";
    assert keys[0..] == keys;
    for i := 0 to |keys|
      invariant forall k :: k in keys[i..] ==> k in data
      invariant text + Serialize(keys[i..], data) == Serialize(keys, data)
    {
      var k := keys[i];
      assert keys[i..][0] == k && keys[i..][1..] == keys[i + 1..];
      Assoc(text, k + [NUL] + data[k] + [NUL], Serialize(keys[i + 1..], data));
      text := text + (k + [NUL] + data[k] + [NUL]);
    }
  }

  // ---------- when the text determines the map ----------

  predicate Without(s: string, c: char) {
    forall i | 0 <= i < |s| :: s[i] != c
  }

  predicate NulFree(s: string) {
    Without(s, NUL)
  }

  predicate NulFreeMap(data: map<string, string>) {
    forall k | k in data :: NulFree(k) && NulFree(data[k])
  }

  /** The first separator ends the first field. */
  lemma SplitAt(sep: char, a: string, x: string, b: string, y: string)
    requires Without(a, sep) && Without(b, sep) && a + [sep] + x == b + [sep] + y
    ensures a == b && x == y
  {
    var t, u := a + [sep] + x, b + [sep] + y;
    assert t[|a|] == sep && u[|b|] == sep;
    assert forall i | 0 <= i < |a| :: t[i] == a[i] != sep;
    assert forall i | 0 <= i < |b| :: u[i] == b[i] != sep;
    assert |a| == |b|;
    assert t[..|a|] == a && u[..|b|] == b;
    assert t[|a| + 1..] == x && u[|b| + 1..] == y;
  }

  lemma SplitEntry(k: string, v: string, x: string, k': string, v': string, x': string)
    requires NulFree(k) && NulFree(v) && NulFree(k') && NulFree(v')
    requires k + [NUL] + v + [NUL] + x == k' + [NUL] + v' + [NUL] + x'
    ensures k == k' && v == v' && x == x'
  {
    assert k + [NUL] + v + [NUL] + x == k + [NUL] + (v + [NUL] + x);
    assert k' + [NUL] + v' + [NUL] + x' == k' + [NUL] + (v' + [NUL] + x');
    SplitAt(NUL, k, v + [NUL] + x, k', v' + [NUL] + x');
    SplitAt(NUL, v, x, v', x');
  }

  lemma SerializeEmpty(keys: seq<string>, data: map<string, string>)
    requires forall k :: k in keys ==> k in data
    ensures Serialize(keys, data) == "" <==> keys == []
  {
    if keys != [] {
      assert Serialize(keys, data)[|keys[0]|] == NUL;
    }
  }

  lemma {:induction false} SerializeInjective(keys: seq<string>, data: map<string, string>, keys': seq<string>,
                                              data': map<string, string>)
    requires (forall k :: k in keys ==> k in data) && (forall k :: k in keys' ==> k in data')
    requires NulFreeMap(data) && NulFreeMap(data') && Serialize(keys, data) == Serialize(keys', data')
    ensures keys == keys' && forall k :: k in keys ==> data[k] == data'[k]
  {
    SerializeEmpty(keys, data);
    SerializeEmpty(keys', data');
    if keys != [] {
      assert keys[0] in keys && keys'[0] in keys';
      SplitEntry(keys[0], data[keys[0]], Serialize(keys[1..], data), keys'[0], data'[keys'[0]],
                 Serialize(keys'[1..], data'));
      SerializeInjective(keys[1..], data, keys'[1..], data');
      assert keys == [keys[0]] + keys[1..] && keys' == [keys'[0]] + keys'[1..];
    }
  }

  /** Maps without NULs have the same text only if they are equal. */
  lemma HashInputInjective(data: map<string, string>, data': map<string, string>)
    requires NulFreeMap(data) && NulFreeMap(data') && HashInput(data) == HashInput(data')
    ensures data == data'
  {
    SerializeInjective(KeyList(data.Keys), data, KeyList(data'.Keys), data');
    assert data.Keys == data'.Keys;
  }

  lemma SerializeOne(k: string, data: map<string, string>)
    requires k in data
    ensures Serialize([k], data) == k + [NUL] + data[k] + [NUL]
  {
    assert [k][1..] == [];
    assert Serialize([], data) == "";
  }

  /** The hashed text: every key and its value, each followed by a NUL character, keys in order. */
  lemma HashInputInLiterals(k: string, v: string, k': string, v': string)
    requires k != k' && Leq(k, k')
    ensures HashInput(map[]) == ""
    ensures HashInput(map[k := v]) == k + "\0" + v + "\0"
    ensures HashInput(map[k := v, k' := v']) == k + "\0" + v + "\0" + (k' + "\0" + v' + "\0")
  {
    var none: map<string, string> := map[];
    var one, two := map[k := v], map[k := v, k' := v'];
    KeyListUnique([], KeyList(none.Keys), none.Keys);
    KeyListUnique([k], KeyList(one.Keys), one.Keys);
    KeyListUnique([k, k'], KeyList(two.Keys), two.Keys);
    assert [NUL] == "\0";
    SerializeOne(k, one);
    SerializeOne(k', two);
    assert [k, k'][1..] == [k'];
  }

  /** With a NUL in a value the text is ambiguous: it can stand for one key or for two. */
  lemma NulIsAmbiguous(k: string, v: string, k': string, v': string)
    requires k != k' && Leq(k, k')
    ensures var one, two := map[k := v + [NUL] + k' + [NUL] + v'], map[k := v, k' := v'];
            one != two && HashInput(one) == HashInput(two)
  {
    var one, two := map[k := v + [NUL] + k' + [NUL] + v'], map[k := v, k' := v'];
    KeyListUnique([k], KeyList(one.Keys), one.Keys);
    KeyListUnique([k, k'], KeyList(two.Keys), two.Keys);
    SerializeOne(k, one);
    SerializeOne(k', two);
    assert [k, k'][1..] == [k'];
    assert HashInput(two) == k + [NUL] + v + [NUL] + (k' + [NUL] + v' + [NUL]);
    assert k + [NUL] + (v + [NUL] + k' + [NUL] + v') + [NUL] == k + [NUL] + v + [NUL] + (k' + [NUL] + v' + [NUL]);
    assert k' !in one && k' in two;
  }

  // ---------- exactly when the text is ambiguous ----------

  function Nuls(s: string): nat {
    if s == "" then 0 else (if s[0] == NUL then 1 else 0) + Nuls(s[1..])
  }

  lemma {:induction false} NulsOfSum(a: string, b: string)
    ensures Nuls(a + b) == Nuls(a) + Nuls(b)
  {
    if a == "" {
      assert a + b == b;
    } else {
      assert (a + b)[1..] == a[1..] + b;
      NulsOfSum(a[1..], b);
    }
  }

  lemma {:induction false} NoNulsIsNulFree(s: string)
    ensures Nuls(s) == 0 <==> NulFree(s)
  {
    if s != "" {
      NoNulsIsNulFree(s[1..]);
      assert forall i | 0 <= i < |s| - 1 :: s[1..][i] == s[i + 1];
      if s[0] != NUL && NulFree(s[1..]) {
        assert forall i | 0 < i < |s| :: s[i] == s[1..][i - 1];
      }
    }
  }

  lemma NulsOfEntry(k: string, v: string, rest: string)
    ensures Nuls(k + [NUL] + v + [NUL] + rest) == Nuls(k) + Nuls(v) + 2 + Nuls(rest)
  {
    NulsOfSum(k, [NUL]);
    NulsOfSum(k + [NUL], v);
    NulsOfSum(k + [NUL] + v, [NUL]);
    NulsOfSum(k + [NUL] + v + [NUL], rest);
    assert [NUL][1..] == "";
    assert Nuls([NUL]) == 1;
  }

  /** A text with at most two NULs has at most one entry, and no NUL in it. */
  lemma {:induction false} FewNuls(keys: seq<string>, data: map<string, string>)
    requires forall k :: k in keys ==> k in data
    ensures Nuls(Serialize(keys, data)) >= 2 * |keys|
    ensures Nuls(Serialize(keys, data)) <= 2 ==> forall k :: k in keys ==> NulFree(k) && NulFree(data[k])
  {
    if keys != [] {
      FewNuls(keys[1..], data);
      NulsOfEntry(keys[0], data[keys[0]], Serialize(keys[1..], data));
      NoNulsIsNulFree(keys[0]);
      NoNulsIsNulFree(data[keys[0]]);
      assert keys == [keys[0]] + keys[1..];
    }
  }

  lemma FewNulsMap(data: map<string, string>)
    requires Nuls(HashInput(data)) <= 2
    ensures NulFreeMap(data)
  {
    FewNuls(KeyList(data.Keys), data);
  }

  /** The text up to the first NUL, and the text behind it. */
  lemma {:induction false} FirstNul(s: string) returns (a: string, b: string)
    requires Nuls(s) > 0
    ensures s == a + [NUL] + b && Nuls(s) == Nuls(b) + 1
  {
    if s[0] == NUL {
      a, b := "", s[1..];
      assert s == [NUL] + b;
    } else {
      a, b := FirstNul(s[1..]);
      a := [s[0]] + a;
      assert s == [s[0]] + s[1..];
    }
  }

  lemma OneKeyText(k: string, v: string)
    ensures HashInput(map[k := v]) == k + [NUL] + v + [NUL]
  {
    var data := map[k := v];
    assert data.Keys == {k};
    KeyListUnique([k], KeyList(data.Keys), data.Keys);
    SerializeOne(k, data);
  }

  lemma {:induction false} TextEndsWithNul(keys: seq<string>, data: map<string, string>)
    requires (forall k :: k in keys ==> k in data) && keys != []
    ensures var t := Serialize(keys, data); t != "" && t[|t| - 1] == NUL
  {
    if |keys| > 1 {
      TextEndsWithNul(keys[1..], data);
    } else {
      SerializeOne(keys[0], data);
      assert keys == [keys[0]];
    }
  }

  /** A text with three NULs is the text of two maps with one key: the key ends at the first NUL, or
      at the second. */
  lemma TwoReadings(a: string, b: string, c: string)
    ensures var one, two := map[a := b + [NUL] + c], map[a + [NUL] + b := c];
            && one != two
            && HashInput(one) == a + [NUL] + b + [NUL] + c + [NUL] == HashInput(two)
  {
    var one, two := map[a := b + [NUL] + c], map[a + [NUL] + b := c];
    OneKeyText(a, b + [NUL] + c);
    OneKeyText(a + [NUL] + b, c);
    assert a + [NUL] + (b + [NUL] + c) + [NUL] == a + [NUL] + b + [NUL] + c + [NUL];
    assert |a + [NUL] + b| > |a|;
    assert a in one && a !in two;
  }

  lemma ManyNuls(data: map<string, string>) returns (other: map<string, string>)
    requires Nuls(HashInput(data)) > 2
    ensures other != data && HashInput(other) == HashInput(data)
  {
    var keys, t := KeyList(data.Keys), HashInput(data);
    assert keys != [];
    TextEndsWithNul(keys, data);
    var front := t[..|t| - 1];
    assert t == front + [NUL];
    NulsOfSum(front, [NUL]);
    assert [NUL][1..] == "" && Nuls([NUL]) == 1;
    var a, rest := FirstNul(front);
    var b, c := FirstNul(rest);
    TwoReadings(a, b, c);
    assert t == a + [NUL] + b + [NUL] + c + [NUL];
    other := if data == map[a := b + [NUL] + c] then map[a + [NUL] + b := c] else map[a := b + [NUL] + c];
  }

  /** Another map has the same text if and only if the text has more than two NULs: then at least two
      entries, or a NUL inside one, leave it open where the fields end. */
  lemma AmbiguousExactly(data: map<string, string>)
    ensures (exists other :: other != data && HashInput(other) == HashInput(data)) <==> Nuls(HashInput(data)) > 2
  {
    if Nuls(HashInput(data)) > 2 {
      var other := ManyNuls(data);
    } else {
      forall other | HashInput(other) == HashInput(data)
        ensures other == data
      {
        FewNulsMap(data);
        FewNulsMap(other);
        HashInputInjective(data, other);
      }
    }
  }
}
