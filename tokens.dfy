/** The design-token tree, as both implementations read it from a parsed
    JSON or YAML document, and the key order of the Rust side's objects.

    Numbers keep their literal text; no arithmetic is done on them. Objects
    are sequences of (key, child) members in iteration order: for the Rust
    implementations that order is the one of serde_json's default map, which
    keeps its keys sorted (`RustWf`); for the JavaScript implementation it is
    the order `Object.keys` yields. */
module Tokens {
  import opened Seqs

  datatype Token =
    | Null
    | Bool(flag: bool)
    | Num(literal: string)
    | Str(text: string)
    | Arr(items: seq<Token>)
    | Obj(members: seq<(string, Token)>)

  /** True for the leaves of the tree: everything but arrays and objects. */
  predicate IsScalar(t: Token) { !t.Arr? && !t.Obj? }

  /** Lexicographic order on strings, character by character (the order of
      Rust's `String`, whose byte order agrees with code-point order). */
  predicate StrLess(a: string, b: string)
  {
    if a == [] then b != []
    else if b == [] then false
    else a[0] < b[0] || (a[0] == b[0] && StrLess(a[1..], b[1..]))
  }

  lemma {:induction false} StrLessIrreflexive(a: string)
    ensures !StrLess(a, a)
  {
    if a != [] { StrLessIrreflexive(a[1..]); }
  }

  lemma {:induction false} StrLessTotal(a: string, b: string)
    requires a != b
    ensures StrLess(a, b) || StrLess(b, a)
  {
    if a != [] && b != [] && a[0] == b[0] {
      assert a == [a[0]] + a[1..] && b == [b[0]] + b[1..];
      StrLessTotal(a[1..], b[1..]);
    }
  }

  lemma {:induction false} StrLessTransitive(a: string, b: string, c: string)
    requires StrLess(a, b) && StrLess(b, c)
    ensures StrLess(a, c)
  {
    if a != [] && b != [] && c != [] && a[0] == b[0] && b[0] == c[0] {
      StrLessTransitive(a[1..], b[1..], c[1..]);
    }
  }

  lemma StrLessAsymmetric(a: string, b: string)
    requires StrLess(a, b)
    ensures !StrLess(b, a)
  {
    if StrLess(b, a) {
      StrLessTransitive(a, b, a);
      StrLessIrreflexive(a);
    }
  }

  function Keys(ms: seq<(string, Token)>): seq<string>
  {
    seq(|ms|, i requires 0 <= i < |ms| => ms[i].0)
  }

  /** Keys strictly increasing: sorted, hence no key occurs twice. */
  predicate SortedKeys(ms: seq<(string, Token)>)
  {
    forall i, j :: 0 <= i < j < |ms| ==> StrLess(ms[i].0, ms[j].0)
  }

  /** The Rust object invariant, at every level of the tree. */
  predicate RustWf(t: Token)
  {
    match t
    case Arr(items) => forall i :: 0 <= i < |items| ==> RustWf(items[i])
    case Obj(ms) => SortedKeys(ms) && forall i :: 0 <= i < |ms| ==> RustWf(ms[i].1)
    case _ => true
  }

  /** The value stored under `k`, the first member with that key. */
  function Get(ms: seq<(string, Token)>, k: string): (r: Option<Token>)
    ensures r.Some? <==> k in Keys(ms)
  {
    if ms == [] then None
    else
      assert Keys(ms) == [ms[0].0] + Keys(ms[1..]);
      if ms[0].0 == k then Some(ms[0].1) else Get(ms[1..], k)
  }

  /** A successful lookup names a member of the object. */
  lemma {:induction false} GetMember(ms: seq<(string, Token)>, k: string)
    requires Get(ms, k).Some?
    ensures exists j :: 0 <= j < |ms| && ms[j] == (k, Get(ms, k).value)
  {
    if ms[0].0 != k {
      GetMember(ms[1..], k);
      var j :| 0 <= j < |ms[1..]| && ms[1..][j] == (k, Get(ms[1..], k).value);
      assert ms[j + 1] == ms[1..][j];
    }
  }

  /** With sorted keys, each member is found under its own key. */
  lemma {:induction false} GetSorted(ms: seq<(string, Token)>, j: nat)
    requires SortedKeys(ms) && j < |ms|
    ensures Get(ms, ms[j].0) == Some(ms[j].1)
  {
    if j > 0 {
      StrLessIrreflexive(ms[0].0);
      assert StrLess(ms[0].0, ms[j].0);
      assert ms[0].0 != ms[j].0;
      SortedKeysTail(ms);
      GetSorted(ms[1..], j - 1);
      assert ms[1..][j - 1] == ms[j];
    }
  }

  /** Insertion into the sorted map that backs a serde_json object: an
      existing key has its value replaced in place, a new key goes to the
      position its order gives it. */
  function Insert(ms: seq<(string, Token)>, k: string, v: Token): seq<(string, Token)>
  {
    if ms == [] then [(k, v)]
    else if ms[0].0 == k then [(k, v)] + ms[1..]
    else if StrLess(k, ms[0].0) then [(k, v)] + ms
    else [ms[0]] + Insert(ms[1..], k, v)
  }

  /** The keys after an insertion are the old keys and `k`. */
  lemma {:induction false} InsertKeys(ms: seq<(string, Token)>, k: string, v: Token)
    ensures forall x :: x in Keys(Insert(ms, k, v)) <==> x == k || x in Keys(ms)
  {
    if ms != [] && ms[0].0 != k && !StrLess(k, ms[0].0) {
      InsertKeys(ms[1..], k, v);
      assert Keys(Insert(ms, k, v)) == [ms[0].0] + Keys(Insert(ms[1..], k, v));
      assert Keys(ms) == [ms[0].0] + Keys(ms[1..]);
    } else if ms != [] {
      assert Keys(ms) == [ms[0].0] + Keys(ms[1..]);
      if ms[0].0 == k {
        assert Keys(Insert(ms, k, v)) == [k] + Keys(ms[1..]);
      } else {
        assert Keys(Insert(ms, k, v)) == [k] + Keys(ms);
      }
    } else {
      assert Keys(Insert(ms, k, v)) == [k];
    }
  }

  lemma SortedKeysTail(ms: seq<(string, Token)>)
    requires ms != [] && SortedKeys(ms)
    ensures SortedKeys(ms[1..])
    ensures forall x :: x in Keys(ms[1..]) ==> StrLess(ms[0].0, x)
  {
    forall x | x in Keys(ms[1..]) ensures StrLess(ms[0].0, x) {
      var j :| 0 <= j < |ms[1..]| && Keys(ms[1..])[j] == x;
      assert ms[1..][j] == ms[j + 1];
    }
  }

  lemma SortedKeysCons(m: (string, Token), ms: seq<(string, Token)>)
    requires SortedKeys(ms)
    requires forall x :: x in Keys(ms) ==> StrLess(m.0, x)
    ensures SortedKeys([m] + ms)
  {
    var r := [m] + ms;
    forall i, j | 0 <= i < j < |r| ensures StrLess(r[i].0, r[j].0) {
      if i == 0 {
        assert r[j].0 == Keys(ms)[j - 1];
      } else {
        assert r[i] == ms[i - 1] && r[j] == ms[j - 1];
      }
    }
  }

  /** Insertion keeps the keys strictly sorted, and the inserted key then
      maps to the inserted value. */
  lemma {:induction false} InsertSorted(ms: seq<(string, Token)>, k: string, v: Token)
    requires SortedKeys(ms)
    ensures SortedKeys(Insert(ms, k, v))
    ensures Get(Insert(ms, k, v), k) == Some(v)
  {
    if ms == [] {
    } else if ms[0].0 == k {
      SortedKeysTail(ms);
      SortedKeysCons((k, v), ms[1..]);
    } else if StrLess(k, ms[0].0) {
      SortedKeysTail(ms);
      forall x | x in Keys(ms) ensures StrLess(k, x) {
        if x != ms[0].0 {
          assert Keys(ms) == [ms[0].0] + Keys(ms[1..]);
          StrLessTransitive(k, ms[0].0, x);
        }
      }
      SortedKeysCons((k, v), ms);
    } else {
      SortedKeysTail(ms);
      InsertSorted(ms[1..], k, v);
      InsertKeys(ms[1..], k, v);
      StrLessTotal(k, ms[0].0);
      SortedKeysCons(ms[0], Insert(ms[1..], k, v));
    }
  }

  /** The object serde_json builds from a document's members, read in
      document order: each member inserted in turn into the sorted map. */
  function FromPairs(pairs: seq<(string, Token)>): seq<(string, Token)>
  {
    if pairs == [] then []
    else Insert(FromPairs(pairs[..|pairs| - 1]), pairs[|pairs| - 1].0, pairs[|pairs| - 1].1)
  }

  /** Whatever the document order, the parsed object has sorted keys, and
      every key of the document is in it. */
  lemma {:induction false} FromPairsSorted(pairs: seq<(string, Token)>)
    ensures SortedKeys(FromPairs(pairs))
    ensures forall x :: x in Keys(FromPairs(pairs)) <==> x in Keys(pairs)
  {
    if pairs != [] {
      var init := pairs[..|pairs| - 1];
      var last := pairs[|pairs| - 1];
      FromPairsSorted(init);
      InsertSorted(FromPairs(init), last.0, last.1);
      InsertKeys(FromPairs(init), last.0, last.1);
      assert Keys(pairs) == Keys(init) + [last.0];
    }
  }
}
