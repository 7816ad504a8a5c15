/** Sequence and string utilities shared by the renderers and flatteners:
    an Option type, concatenation of a sequence of sequences (the `flat_map`
    / spread-and-reduce idiom of both implementations), `join` and `split`
    with the semantics of Rust's `[String]::join` and JavaScript's
    `Array.prototype.join` / `String.prototype.split` on one separator. */
module Seqs {

  datatype Option<T> = None | Some(value: T)

  /** A fallible result; the error carries a message. */
  datatype Result<T> = Ok(value: T) | Err(message: string)

  /** Concatenation of all parts, in order; defined from the end so that a
      loop appending one part per iteration matches it step by step. */
  function Concat<T>(ss: seq<seq<T>>): seq<T>
  {
    if ss == [] then [] else Concat(ss[..|ss| - 1]) + ss[|ss| - 1]
  }

  lemma ConcatSnoc<T>(ss: seq<seq<T>>, i: nat)
    requires i < |ss|
    ensures Concat(ss[..i + 1]) == Concat(ss[..i]) + ss[i]
  {
    assert ss[..i + 1][..i] == ss[..i];
  }

  lemma {:induction false} ConcatCons<T>(ss: seq<seq<T>>)
    requires ss != []
    ensures Concat(ss) == ss[0] + Concat(ss[1..])
  {
    if |ss| == 1 {
      assert ss[1..] == [];
    } else {
      var init := ss[..|ss| - 1];
      ConcatCons(init);
      assert init[1..] == ss[1..][..|ss[1..]| - 1];
    }
  }

  /** Concatenation of two lists of parts is the concatenation of their
      concatenations. */
  lemma {:induction false} ConcatAppend<T>(a: seq<seq<T>>, b: seq<seq<T>>)
    ensures Concat(a + b) == Concat(a) + Concat(b)
  {
    if b == [] {
      assert a + b == a;
    } else {
      assert (a + b)[..|a + b| - 1] == a + b[..|b| - 1];
      ConcatAppend(a, b[..|b| - 1]);
    }
  }

  /** An empty part adds nothing to a concatenation. */
  lemma ConcatEmptyPart<T>(a: seq<seq<T>>, b: seq<seq<T>>)
    ensures Concat(a + [[]] + b) == Concat(a + b)
  {
    var none: seq<seq<T>> := [[]];
    ConcatAppend(a + none, b);
    ConcatAppend(a, none);
    ConcatAppend(a, b);
    assert Concat(none) == [] by { assert none[..0] == []; }
  }

  function Sum(ns: seq<nat>): nat
  {
    if ns == [] then 0 else Sum(ns[..|ns| - 1]) + ns[|ns| - 1]
  }

  /** The length of a concatenation is the sum of the parts' lengths. */
  lemma {:induction false} ConcatLength<T>(ss: seq<seq<T>>)
    ensures |Concat(ss)| == Sum(seq(|ss|, i requires 0 <= i < |ss| => |ss[i]|))
  {
    if ss != [] {
      var init := ss[..|ss| - 1];
      ConcatLength(init);
      assert seq(|ss|, i requires 0 <= i < |ss| => |ss[i]|)[..|ss| - 1]
          == seq(|init|, i requires 0 <= i < |init| => |init[i]|);
    }
  }

  /** Every element of a concatenation comes from one of its parts, and every
      element of a part is in the concatenation. */
  lemma {:induction false} ConcatMembership<T>(ss: seq<seq<T>>, x: T)
    ensures x in Concat(ss) <==> exists i :: 0 <= i < |ss| && x in ss[i]
  {
    if ss != [] {
      var init := ss[..|ss| - 1];
      ConcatMembership(init, x);
      if x in Concat(init) {
        var i :| 0 <= i < |init| && x in init[i];
        assert x in ss[i];
      }
      if exists i :: 0 <= i < |ss| && x in ss[i] {
        var i :| 0 <= i < |ss| && x in ss[i];
        if i < |init| { assert x in init[i]; }
      }
    }
  }

  /** `parts.join(sep)`: the parts with `sep` between neighbours. */
  function Join(parts: seq<string>, sep: string): string
  {
    if |parts| == 0 then ""
    else if |parts| == 1 then parts[0]
    else parts[0] + sep + Join(parts[1..], sep)
  }

  /** `s.split(d)` for a one-character separator: the maximal runs between
      occurrences of `d`, always at least one piece. */
  function Split(s: string, d: char): (pieces: seq<string>)
    ensures |pieces| >= 1
  {
    if s == [] then [""]
    else if s[0] == d then [""] + Split(s[1..], d)
    else var rest := Split(s[1..], d); [[s[0]] + rest[0]] + rest[1..]
  }

  function Count(s: string, c: char): nat
  {
    if s == [] then 0 else (if s[0] == c then 1 else 0) + Count(s[1..], c)
  }

  /** `s` with every occurrence of `c` removed. */
  function Remove(s: string, c: char): string
  {
    if s == [] then [] else (if s[0] == c then [] else [s[0]]) + Remove(s[1..], c)
  }

  lemma {:induction false} RemoveAppend(a: string, b: string, c: char)
    ensures Remove(a + b, c) == Remove(a, c) + Remove(b, c)
  {
    if a != [] {
      assert (a + b)[1..] == a[1..] + b;
      RemoveAppend(a[1..], b, c);
    } else {
      assert a + b == b;
    }
  }

  lemma {:induction false} RemoveAbsent(s: string, c: char)
    requires c !in s
    ensures Remove(s, c) == s
  {
    if s != [] { RemoveAbsent(s[1..], c); }
  }

  lemma {:induction false} CountAppend(a: string, b: string, c: char)
    ensures Count(a + b, c) == Count(a, c) + Count(b, c)
  {
    if a != [] {
      assert (a + b)[1..] == a[1..] + b;
      CountAppend(a[1..], b, c);
    } else {
      assert a + b == b;
    }
  }

  lemma {:induction false} SplitPiecesExclude(s: string, d: char)
    ensures forall p :: p in Split(s, d) ==> d !in p
  {
    if s != [] { SplitPiecesExclude(s[1..], d); }
  }

  lemma {:induction false} SplitCount(s: string, d: char)
    ensures |Split(s, d)| == Count(s, d) + 1
  {
    if s != [] { SplitCount(s[1..], d); }
  }

  /** Joining the pieces of a split with the separator gives back the input. */
  lemma {:induction false} JoinSplit(s: string, d: char)
    ensures Join(Split(s, d), [d]) == s
  {
    if s != [] {
      JoinSplit(s[1..], d);
      var rest := Split(s[1..], d);
      if s[0] == d {
        assert Split(s, d) == [""] + rest;
        assert ([""] + rest)[1..] == rest;
      } else {
        if |rest| == 1 {
        } else {
          assert rest == [rest[0]] + rest[1..];
          var ps := [[s[0]] + rest[0]] + rest[1..];
          assert ps[1..] == rest[1..];
          assert Join(rest, [d]) == rest[0] + [d] + Join(rest[1..], [d]);
        }
      }
    }
  }

  /** Splitting a join on a separator that no part contains gives back the
      parts. */
  lemma {:induction false} SplitJoin(parts: seq<string>, d: char)
    requires |parts| >= 1
    requires forall i :: 0 <= i < |parts| ==> d !in parts[i]
    ensures Split(Join(parts, [d]), d) == parts
  {
    if |parts| == 1 {
      SplitNoSeparator(parts[0], d);
    } else {
      SplitJoin(parts[1..], d);
      SplitPrefix(parts[0], Join(parts[1..], [d]), d);
      assert [parts[0]] + parts[1..] == parts;
    }
  }

  lemma {:induction false} SplitNoSeparator(s: string, d: char)
    requires d !in s
    ensures Split(s, d) == [s]
  {
    if s != [] {
      SplitNoSeparator(s[1..], d);
      assert [s[0]] + s[1..] == s;
    }
  }

  /** Splitting `p + d + t`, where `p` has no separator, yields `p` followed by
      the pieces of `t`. */
  lemma {:induction false} SplitPrefix(p: string, t: string, d: char)
    requires d !in p
    ensures Split(p + [d] + t, d) == [p] + Split(t, d)
  {
    if p == [] {
      assert p + [d] + t == [d] + t;
      assert ([d] + t)[1..] == t;
    } else {
      assert (p + [d] + t)[1..] == p[1..] + [d] + t;
      SplitPrefix(p[1..], t, d);
      assert [p[0]] + p[1..] == p;
    }
  }

  /** Joining with the empty separator is the same as removing the separator
      character from the string the pieces were split from. */
  lemma {:induction false} JoinEmptySplit(s: string, d: char)
    ensures Join(Split(s, d), "") == Remove(s, d)
  {
    if s != [] {
      JoinEmptySplit(s[1..], d);
      var rest := Split(s[1..], d);
      if s[0] == d {
        assert ([""] + rest)[1..] == rest;
      } else if |rest| > 1 {
        var ps := [[s[0]] + rest[0]] + rest[1..];
        assert ps[1..] == rest[1..];
      }
    }
  }

  /** The length of a join: the parts' lengths plus one separator between
      each pair of neighbours. */
  lemma {:induction false} JoinLength(parts: seq<string>, sep: string)
    ensures |parts| >= 1 ==> |Join(parts, sep)| == Sum(seq(|parts|, i requires 0 <= i < |parts| => |parts[i]|)) + (|parts| - 1) * |sep|
  {
    if |parts| > 1 {
      JoinLength(parts[1..], sep);
      SumCons(seq(|parts|, i requires 0 <= i < |parts| => |parts[i]|));
      assert seq(|parts|, i requires 0 <= i < |parts| => |parts[i]|)[1..]
          == seq(|parts[1..]|, i requires 0 <= i < |parts[1..]| => |parts[1..][i]|);
    } else if |parts| == 1 {
      assert seq(|parts|, i requires 0 <= i < |parts| => |parts[i]|) == [|parts[0]|];
      assert [|parts[0]|][..0] == [];
    }
  }

  lemma {:induction false} SumCons(ns: seq<nat>)
    requires ns != []
    ensures Sum(ns) == ns[0] + Sum(ns[1..])
  {
    if |ns| > 1 {
      var init := ns[..|ns| - 1];
      SumCons(init);
      assert init[1..] == ns[1..][..|ns[1..]| - 1];
    } else {
      assert ns[..0] == [];
    }
  }

  /** The characters of a join are those of its parts and of the separator. */
  lemma {:induction false} JoinChars(parts: seq<string>, sep: string, c: char)
    requires c !in sep
    ensures c in Join(parts, sep) <==> exists i :: 0 <= i < |parts| && c in parts[i]
  {
    if |parts| > 1 {
      JoinChars(parts[1..], sep, c);
      if exists i :: 0 <= i < |parts[1..]| && c in parts[1..][i] {
        var i :| 0 <= i < |parts[1..]| && c in parts[1..][i];
        assert c in parts[i + 1];
      }
      if exists i :: 0 <= i < |parts| && c in parts[i] {
        var i :| 0 <= i < |parts| && c in parts[i];
        if i > 0 { assert c in parts[1..][i - 1]; }
      }
    }
  }
}
