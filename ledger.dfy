/** The line-item merge rule that both the cart view model and the cart
    repository apply to a list of lines: find the first line with the edited
    key, then replace its quantity, remove it, or append a new line. The rule is
    generic in the line type; `keyOf` is the line's identity and `setQty`
    Kotlin's `copy(quantity = q)`. */
module Ledger {
  import opened Common

  /** The laws `copy(quantity = n)` obeys: it keeps the key and is idempotent. */
  ghost predicate QtyLaws<T(!new)>(keyOf: T -> string, setQty: (T, int) -> T) {
    forall x, n {:trigger setQty(x, n)} ::
      keyOf(setQty(x, n)) == keyOf(x) && setQty(setQty(x, n), n) == setQty(x, n)
  }

  /** At most one line per key. */
  ghost predicate UniqueKeys<T>(lines: seq<T>, keyOf: T -> string) {
    forall i, j :: 0 <= i < j < |lines| ==> keyOf(lines[i]) != keyOf(lines[j])
  }

  /** Kotlin's `indexOfFirst { keyOf(it) == key }`. */
  function FirstIndex<T>(lines: seq<T>, keyOf: T -> string, key: string): (r: int)
    ensures -1 <= r < |lines|
    ensures r >= 0 ==> keyOf(lines[r]) == key && forall j :: 0 <= j < r ==> keyOf(lines[j]) != key
    ensures r == -1 <==> forall j :: 0 <= j < |lines| ==> keyOf(lines[j]) != key
  {
    if lines == [] then -1
    else if keyOf(lines[0]) == key then 0
    else
      var r := FirstIndex(lines[1..], keyOf, key);
      if r == -1 then -1 else r + 1
  }

  /** Kotlin's `removeAt(i)`. */
  function RemoveAt<T>(lines: seq<T>, i: nat): (r: seq<T>)
    requires i < |lines|
    ensures |r| == |lines| - 1
    ensures forall j :: 0 <= j < i ==> r[j] == lines[j]
    ensures forall j :: i <= j < |r| ==> r[j] == lines[j + 1]
  {
    lines[..i] + lines[i + 1..]
  }

  /** The merge rule, stated on values (the view model and repository run it on a mutable copy). */
  function Upsert<T>(lines: seq<T>, keyOf: T -> string, setQty: (T, int) -> T,
                     key: string, q: int, added: Option<T>): seq<T>
  {
    var i := FirstIndex(lines, keyOf, key);
    if i != -1 then
      if q > 0 then lines[i := setQty(lines[i], q)] else RemoveAt(lines, i)
    else if q > 0 && added.Some? then lines + [added.value]
    else lines
  }

  /** The merge rule as both Kotlin classes run it: `toMutableList()`, then
      `indexOfFirst` as a scan from the front, then an index assignment,
      `removeAt` or `add` on that copy. */
  method UpsertInPlace<T>(lines: seq<T>, keyOf: T -> string, setQty: (T, int) -> T,
                          key: string, q: int, added: Option<T>)
    returns (r: seq<T>)
    ensures r == Upsert(lines, keyOf, setQty, key, q, added)
  {
    r := lines;
    var i := 0;
    while i < |r| && keyOf(r[i]) != key
      invariant 0 <= i <= |r|
      invariant forall j :: 0 <= j < i ==> keyOf(r[j]) != key
    {
      i := i + 1;
    }
    var index := if i < |r| then i else -1;
    assert index == FirstIndex(lines, keyOf, key);
    if index != -1 {
      if q > 0 {
        r := r[index := setQty(r[index], q)];
      } else {
        r := RemoveAt(r, index);
      }
    } else if q > 0 && added.Some? {
      r := r + [added.value];
    }
  }

  /** The line to append is consulted only for an absent key and a positive quantity. */
  lemma UpsertIgnoresAdded<T>(lines: seq<T>, keyOf: T -> string, setQty: (T, int) -> T,
                              key: string, q: int, a1: Option<T>, a2: Option<T>)
    requires FirstIndex(lines, keyOf, key) != -1 || q <= 0
    ensures Upsert(lines, keyOf, setQty, key, q, a1) == Upsert(lines, keyOf, setQty, key, q, a2)
  {
  }

  /** Kotlin's `filterNot { keyOf(it) == key }`: the lines with any other key, in order. */
  function Others<T>(lines: seq<T>, keyOf: T -> string, key: string): (r: seq<T>)
    ensures |r| <= |lines|
    ensures forall x :: x in r ==> x in lines && keyOf(x) != key
  {
    if lines == [] then []
    else if keyOf(lines[0]) == key then Others(lines[1..], keyOf, key)
    else [lines[0]] + Others(lines[1..], keyOf, key)
  }

  lemma {:induction false} OthersConcat<T>(a: seq<T>, b: seq<T>, keyOf: T -> string, key: string)
    ensures Others(a + b, keyOf, key) == Others(a, keyOf, key) + Others(b, keyOf, key)
  {
    if a != [] {
      assert (a + b)[0] == a[0];
      assert (a + b)[1..] == a[1..] + b;
      OthersConcat(a[1..], b, keyOf, key);
      if keyOf(a[0]) != key {
        assert Others(a + b, keyOf, key) == [a[0]] + Others(a[1..] + b, keyOf, key);
        assert Others(a, keyOf, key) == [a[0]] + Others(a[1..], keyOf, key);
      } else {
        assert Others(a + b, keyOf, key) == Others(a[1..] + b, keyOf, key);
        assert Others(a, keyOf, key) == Others(a[1..], keyOf, key);
      }
    } else {
      assert a + b == b;
    }
  }

  /** Dropping, or changing, a line that carries the key leaves the other lines as they were. */
  lemma OthersAround<T>(lines: seq<T>, i: nat, y: T, keyOf: T -> string, key: string)
    requires i < |lines| && keyOf(lines[i]) == key && keyOf(y) == key
    ensures Others(RemoveAt(lines, i), keyOf, key) == Others(lines, keyOf, key)
    ensures Others(lines[i := y], keyOf, key) == Others(lines, keyOf, key)
  {
    var pre, post := lines[..i], lines[i + 1..];
    assert lines == pre + ([lines[i]] + post);
    assert lines[i := y] == pre + ([y] + post);
    assert RemoveAt(lines, i) == pre + post;
    OthersSingle(lines[i], keyOf, key);
    OthersSingle(y, keyOf, key);
    OthersConcat(pre, [lines[i]] + post, keyOf, key);
    OthersConcat([lines[i]], post, keyOf, key);
    OthersConcat(pre, [y] + post, keyOf, key);
    OthersConcat([y], post, keyOf, key);
    OthersConcat(pre, post, keyOf, key);
  }

  lemma OthersSingle<T>(x: T, keyOf: T -> string, key: string)
    requires keyOf(x) == key
    ensures Others([x], keyOf, key) == []
  {
    assert [x][1..] == [];
  }

  /** An existing key with a positive quantity: only that line changes, in place. */
  lemma UpsertReplaces<T>(lines: seq<T>, keyOf: T -> string, setQty: (T, int) -> T,
                          key: string, q: int, added: Option<T>)
    requires FirstIndex(lines, keyOf, key) != -1 && q > 0
    ensures var i := FirstIndex(lines, keyOf, key);
            var r := Upsert(lines, keyOf, setQty, key, q, added);
            |r| == |lines| && r[i] == setQty(lines[i], q)
            && forall j :: 0 <= j < |lines| && j != i ==> r[j] == lines[j]
  {
  }

  /** An existing key with quantity zero or less: the first line with that key is removed. */
  lemma UpsertRemoves<T>(lines: seq<T>, keyOf: T -> string, setQty: (T, int) -> T,
                         key: string, q: int, added: Option<T>)
    requires FirstIndex(lines, keyOf, key) != -1 && q <= 0
    ensures Upsert(lines, keyOf, setQty, key, q, added)
            == RemoveAt(lines, FirstIndex(lines, keyOf, key))
  {
  }

  /** With at most one line per key, removal leaves no line with that key. */
  lemma UpsertRemovesAll<T>(lines: seq<T>, keyOf: T -> string, setQty: (T, int) -> T,
                            key: string, q: int, added: Option<T>)
    requires UniqueKeys(lines, keyOf) && q <= 0
    ensures forall x :: x in Upsert(lines, keyOf, setQty, key, q, added) ==> keyOf(x) != key
  {
    var i := FirstIndex(lines, keyOf, key);
    if i != -1 {
      var r := Upsert(lines, keyOf, setQty, key, q, added);
      forall x | x in r ensures keyOf(x) != key {
        var j :| 0 <= j < |r| && r[j] == x;
        if j >= i { assert r[j] == lines[j + 1]; }
      }
    }
  }

  /** An absent key: a positive quantity appends `added` if there is one; otherwise nothing changes. */
  lemma UpsertAbsent<T>(lines: seq<T>, keyOf: T -> string, setQty: (T, int) -> T,
                        key: string, q: int, added: Option<T>)
    requires FirstIndex(lines, keyOf, key) == -1
    ensures var r := Upsert(lines, keyOf, setQty, key, q, added);
            if q > 0 && added.Some? then r == lines + [added.value] else r == lines
  {
  }

  /** Lines with any other key are untouched and keep their order. */
  lemma UpsertKeepsOthers<T(!new)>(lines: seq<T>, keyOf: T -> string, setQty: (T, int) -> T,
                                   key: string, q: int, added: Option<T>)
    requires QtyLaws(keyOf, setQty)
    requires added.Some? ==> keyOf(added.value) == key
    ensures Others(Upsert(lines, keyOf, setQty, key, q, added), keyOf, key)
            == Others(lines, keyOf, key)
  {
    var i := FirstIndex(lines, keyOf, key);
    if i != -1 {
      OthersAround(lines, i, setQty(lines[i], q), keyOf, key);
    } else if q > 0 && added.Some? {
      OthersConcat(lines, [added.value], keyOf, key);
    }
  }

  /** The rule keeps at most one line per key. */
  lemma UpsertKeepsUnique<T(!new)>(lines: seq<T>, keyOf: T -> string, setQty: (T, int) -> T,
                                   key: string, q: int, added: Option<T>)
    requires QtyLaws(keyOf, setQty) && UniqueKeys(lines, keyOf)
    requires added.Some? ==> keyOf(added.value) == key
    ensures UniqueKeys(Upsert(lines, keyOf, setQty, key, q, added), keyOf)
  {
    var i := FirstIndex(lines, keyOf, key);
    var r := Upsert(lines, keyOf, setQty, key, q, added);
    if i != -1 && q > 0 {
      assert keyOf(setQty(lines[i], q)) == keyOf(lines[i]);
      forall a, b | 0 <= a < b < |r| ensures keyOf(r[a]) != keyOf(r[b]) {
        assert keyOf(r[a]) == keyOf(lines[a]) && keyOf(r[b]) == keyOf(lines[b]);
      }
    } else if i != -1 {
      forall a, b | 0 <= a < b < |r| ensures keyOf(r[a]) != keyOf(r[b]) {
        var a' := if a < i then a else a + 1;
        var b' := if b < i then b else b + 1;
        assert r[a] == lines[a'] && r[b] == lines[b'];
      }
    }
  }

  /** Applying the rule twice with the same arguments is applying it once, given one line per key. */
  lemma UpsertIdempotent<T(!new)>(lines: seq<T>, keyOf: T -> string, setQty: (T, int) -> T,
                                  key: string, q: int, added: Option<T>)
    requires QtyLaws(keyOf, setQty) && UniqueKeys(lines, keyOf)
    requires added.Some? ==> keyOf(added.value) == key && setQty(added.value, q) == added.value
    ensures var once := Upsert(lines, keyOf, setQty, key, q, added);
            Upsert(once, keyOf, setQty, key, q, added) == once
  {
    var i := FirstIndex(lines, keyOf, key);
    var once := Upsert(lines, keyOf, setQty, key, q, added);
    if i != -1 && q > 0 {
      assert keyOf(setQty(lines[i], q)) == key;
      FirstIndexAt(once, keyOf, key, i);
    } else if q <= 0 {
      UpsertRemovesAll(lines, keyOf, setQty, key, q, added);
      assert FirstIndex(once, keyOf, key) == -1;
    } else if added.Some? {
      assert once[|lines|] == added.value;
      FirstIndexAt(once, keyOf, key, |lines|);
      assert once[|lines| := setQty(added.value, q)] == once;
    }
  }

  /** The first index is the one whose line has the key after lines that do not. */
  lemma FirstIndexAt<T>(lines: seq<T>, keyOf: T -> string, key: string, i: nat)
    requires i < |lines| && keyOf(lines[i]) == key
    requires forall j :: 0 <= j < i ==> keyOf(lines[j]) != key
    ensures FirstIndex(lines, keyOf, key) == i
  {
    var r := FirstIndex(lines, keyOf, key);
    assert r != -1;
  }

  /** With at most one line per key, dropping every line with the key is removing the first one. */
  lemma OthersIsRemoveFirst<T>(lines: seq<T>, keyOf: T -> string, key: string)
    requires UniqueKeys(lines, keyOf)
    ensures var i := FirstIndex(lines, keyOf, key);
            Others(lines, keyOf, key) == if i == -1 then lines else RemoveAt(lines, i)
  {
    var i := FirstIndex(lines, keyOf, key);
    if i == -1 {
      OthersNone(lines, keyOf, key);
    } else {
      var pre, post := lines[..i], lines[i + 1..];
      assert lines == pre + ([lines[i]] + post);
      assert RemoveAt(lines, i) == pre + post;
      OthersSingle(lines[i], keyOf, key);
      OthersConcat(pre, [lines[i]] + post, keyOf, key);
      OthersConcat([lines[i]], post, keyOf, key);
      OthersNone(pre, keyOf, key);
      forall x | x in post ensures keyOf(x) != key {
        var j :| 0 <= j < |post| && post[j] == x;
        assert x == lines[i + 1 + j];
      }
      OthersNone(post, keyOf, key);
    }
  }

  lemma {:induction false} OthersNone<T>(lines: seq<T>, keyOf: T -> string, key: string)
    requires forall x :: x in lines ==> keyOf(x) != key
    ensures Others(lines, keyOf, key) == lines
  {
    if lines != [] {
      assert lines[0] in lines;
      OthersNone(lines[1..], keyOf, key);
      assert [lines[0]] + lines[1..] == lines;
    }
  }
}
