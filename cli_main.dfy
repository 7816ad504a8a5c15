/** The original Rust command-line tool (src/main.rs): the flattener
    `convert_to_flat_list` and the four renderers `transform_to_json`,
    `transform_to_typescript`, `transform_to_css_variables` and
    `transform_to_scss_variables`.

    The flattener recurses into arrays and objects, names array children by
    their 1-based index, drops Null, and threads an accumulator that it
    copies into every level and every child. `Accumulated` is what it
    computes; `Leaves` is the reference: the leaf entries in traversal order.
    The two agree when the accumulator is empty, as at both call sites.

    The foreign pieces are parameters: `numText` is serde_json's number
    display, `kebab` is convert_case's `to_case(Case::Kebab)` and `pretty`
    is the `{:#}` pretty-printer. */
module CliMain {
  import opened Seqs
  import opened Decimal
  import opened Tokens
  import Render

  type Path = seq<string>
  type FlatTokenList = seq<(Path, string)>

  /** The value text of a non-Null scalar: a string unquoted, a number by
      its display, a boolean as `true` / `false`. */
  function LeafText(t: Token, numText: string -> string): string
    requires IsScalar(t) && !t.Null?
  {
    match t
    case Str(s) => s
    case Num(n) => numText(n)
    case Bool(b) => if b then "true" else "false"
  }

  /** The path segment of the array child at 0-based `index`. */
  function IndexSegment(index: nat): string
  {
    NatToString(index + 1)
  }

  /** What `convert_to_flat_list(value, acc, prefix)` returns: `acc`, then
      the entries of this level, each child having been flattened with `acc`
      in front of its own entries. */
  ghost function Accumulated(v: Token, acc: FlatTokenList, prefix: Path, numText: string -> string): FlatTokenList
    decreases v
  {
    acc + match v
      case Null => []
      case Arr(items) =>
        Concat(seq(|items|, i requires 0 <= i < |items| =>
          Accumulated(items[i], acc, prefix + [IndexSegment(i)], numText)))
      case Obj(ms) =>
        Concat(seq(|ms|, i requires 0 <= i < |ms| =>
          Accumulated(ms[i].1, acc, prefix + [ms[i].0], numText)))
      case _ => [(prefix, LeafText(v, numText))]
  }

  /** The reference flattening: one entry per non-Null scalar leaf, in
      depth-first order, with the path from the root below `prefix`. */
  ghost function Leaves(v: Token, prefix: Path, numText: string -> string): FlatTokenList
    decreases v
  {
    match v
    case Null => []
    case Arr(items) =>
      Concat(seq(|items|, i requires 0 <= i < |items| =>
        Leaves(items[i], prefix + [IndexSegment(i)], numText)))
    case Obj(ms) =>
      Concat(seq(|ms|, i requires 0 <= i < |ms| =>
        Leaves(ms[i].1, prefix + [ms[i].0], numText)))
    case _ => [(prefix, LeafText(v, numText))]
  }

  /** `convert_to_flat_list`: copies the accumulator, collects the entries of
      every child (each child flattened with a fresh copy of the accumulator
      and the prefix extended by its segment), and appends them. */
  method ConvertToFlatList(value: Token, valueList: FlatTokenList, prefixList: Path, numText: string -> string)
    returns (newValueList: FlatTokenList)
    ensures newValueList == Accumulated(value, valueList, prefixList, numText)
    decreases value
  {
    newValueList := valueList;
    var newTokenValues: FlatTokenList;
    match value {
      case Null =>
        newTokenValues := [];
      case Arr(items) =>
        ghost var parts := seq(|items|, i requires 0 <= i < |items| =>
          Accumulated(items[i], valueList, prefixList + [IndexSegment(i)], numText));
        newTokenValues := [];
        var index := 0;
        while index < |items|
          invariant 0 <= index <= |items|
          invariant newTokenValues == Concat(parts[..index])
        {
          var newvec := prefixList + [NatToString(index + 1)];
          var childList := ConvertToFlatList(items[index], valueList, newvec, numText);
          ConcatSnoc(parts, index);
          newTokenValues := newTokenValues + childList;
          index := index + 1;
        }
        assert parts[..|items|] == parts;
      case Obj(ms) =>
        ghost var parts := seq(|ms|, i requires 0 <= i < |ms| =>
          Accumulated(ms[i].1, valueList, prefixList + [ms[i].0], numText));
        newTokenValues := [];
        var index := 0;
        while index < |ms|
          invariant 0 <= index <= |ms|
          invariant newTokenValues == Concat(parts[..index])
        {
          var newvec := prefixList + [ms[index].0];
          var childList := ConvertToFlatList(ms[index].1, valueList, newvec, numText);
          ConcatSnoc(parts, index);
          newTokenValues := newTokenValues + childList;
          index := index + 1;
        }
        assert parts[..|ms|] == parts;
      case Str(s) =>
        newTokenValues := [(prefixList, s)];
      case Num(n) =>
        newTokenValues := [(prefixList, numText(n))];
      case Bool(b) =>
        newTokenValues := [(prefixList, if b then "true" else "false")];
    }
    newValueList := newValueList + newTokenValues;
  }

  // ---------------------------------------------------------------------
  // The accumulator

  /** With an empty accumulator the flattener yields the reference list. */
  lemma {:induction false} AccumulatedEmpty(v: Token, prefix: Path, numText: string -> string)
    ensures Accumulated(v, [], prefix, numText) == Leaves(v, prefix, numText)
    decreases v
  {
    match v
    case Arr(items) =>
      var a := seq(|items|, i requires 0 <= i < |items| => Accumulated(items[i], [], prefix + [IndexSegment(i)], numText));
      var b := seq(|items|, i requires 0 <= i < |items| => Leaves(items[i], prefix + [IndexSegment(i)], numText));
      forall i | 0 <= i < |items| ensures a[i] == b[i] {
        AccumulatedEmpty(items[i], prefix + [IndexSegment(i)], numText);
      }
      assert a == b;
    case Obj(ms) =>
      var a := seq(|ms|, i requires 0 <= i < |ms| => Accumulated(ms[i].1, [], prefix + [ms[i].0], numText));
      var b := seq(|ms|, i requires 0 <= i < |ms| => Leaves(ms[i].1, prefix + [ms[i].0], numText));
      forall i | 0 <= i < |ms| ensures a[i] == b[i] {
        AccumulatedEmpty(ms[i].1, prefix + [ms[i].0], numText);
      }
      assert a == b;
    case _ =>
  }

  /** The number of copies of the accumulator in the result: one for the
      node itself and, for a container, those of every child. */
  ghost function Copies(v: Token): nat
    decreases v
  {
    1 + match v
      case Arr(items) => Sum(seq(|items|, i requires 0 <= i < |items| => Copies(items[i])))
      case Obj(ms) => Sum(seq(|ms|, i requires 0 <= i < |ms| => Copies(ms[i].1)))
      case _ => 0
  }

  /** The number of non-Null scalar leaves of a tree. */
  ghost function LeafCount(v: Token): nat
    decreases v
  {
    match v
    case Null => 0
    case Arr(items) => Sum(seq(|items|, i requires 0 <= i < |items| => LeafCount(items[i])))
    case Obj(ms) => Sum(seq(|ms|, i requires 0 <= i < |ms| => LeafCount(ms[i].1)))
    case _ => 1
  }

  lemma {:induction false} SumLinear(a: nat, xs: seq<nat>, ys: seq<nat>, zs: seq<nat>)
    requires |xs| == |ys| == |zs|
    requires forall i :: 0 <= i < |zs| ==> zs[i] == a * xs[i] + ys[i]
    ensures Sum(zs) == a * Sum(xs) + Sum(ys)
  {
    if zs != [] {
      var n := |zs| - 1;
      SumLinear(a, xs[..n], ys[..n], zs[..n]);
      LinearStep(a, Sum(xs[..n]), Sum(ys[..n]), Sum(zs[..n]), xs[n], ys[n], zs[n]);
    }
  }

  lemma LinearStep(a: nat, sx: nat, sy: nat, sz: nat, x: nat, y: nat, z: nat)
    requires sz == a * sx + sy && z == a * x + y
    ensures sz + z == a * (sx + x) + (sy + y)
  {
  }

  lemma ConcatLengthLinear(parts: seq<FlatTokenList>, copies: seq<nat>, counts: seq<nat>, a: nat)
    requires |parts| == |copies| == |counts|
    requires forall i :: 0 <= i < |parts| ==> |parts[i]| == a * copies[i] + counts[i]
    ensures |Concat(parts)| == a * Sum(copies) + Sum(counts)
  {
    ConcatLength(parts);
    SumLinear(a, copies, counts, seq(|parts|, i requires 0 <= i < |parts| => |parts[i]|));
  }

  lemma Distribute(a: nat, b: nat)
    ensures a * (1 + b) == a + a * b
  {
  }

  /** A non-empty accumulator is repeated once per node of the tree: the
      result has `|acc| * Copies(v)` accumulated entries besides the leaf
      entries. */
  lemma {:induction false} AccumulatedLength(v: Token, acc: FlatTokenList, prefix: Path, numText: string -> string)
    ensures |Accumulated(v, acc, prefix, numText)| == |acc| * Copies(v) + LeafCount(v)
    decreases v
  {
    match v
    case Arr(items) =>
      forall i | 0 <= i < |items|
        ensures |Accumulated(items[i], acc, prefix + [IndexSegment(i)], numText)| == |acc| * Copies(items[i]) + LeafCount(items[i])
      {
        AccumulatedLength(items[i], acc, prefix + [IndexSegment(i)], numText);
      }
      ArrayLength(items, acc, prefix, numText);
    case Obj(ms) =>
      forall i | 0 <= i < |ms|
        ensures |Accumulated(ms[i].1, acc, prefix + [ms[i].0], numText)| == |acc| * Copies(ms[i].1) + LeafCount(ms[i].1)
      {
        AccumulatedLength(ms[i].1, acc, prefix + [ms[i].0], numText);
      }
      ObjectLength(ms, acc, prefix, numText);
    case _ =>
  }

  lemma ArrayLength(items: seq<Token>, acc: FlatTokenList, prefix: Path, numText: string -> string)
    requires forall i :: 0 <= i < |items| ==>
      |Accumulated(items[i], acc, prefix + [IndexSegment(i)], numText)| == |acc| * Copies(items[i]) + LeafCount(items[i])
    ensures |Accumulated(Arr(items), acc, prefix, numText)| == |acc| * Copies(Arr(items)) + LeafCount(Arr(items))
  {
    var parts := seq(|items|, i requires 0 <= i < |items| => Accumulated(items[i], acc, prefix + [IndexSegment(i)], numText));
    var copies := seq(|items|, i requires 0 <= i < |items| => Copies(items[i]));
    var counts := seq(|items|, i requires 0 <= i < |items| => LeafCount(items[i]));
    AccumulatedParts(acc, parts, copies, counts);
    assert Accumulated(Arr(items), acc, prefix, numText) == acc + Concat(parts);
  }

  lemma ObjectLength(ms: seq<(string, Token)>, acc: FlatTokenList, prefix: Path, numText: string -> string)
    requires forall i :: 0 <= i < |ms| ==>
      |Accumulated(ms[i].1, acc, prefix + [ms[i].0], numText)| == |acc| * Copies(ms[i].1) + LeafCount(ms[i].1)
    ensures |Accumulated(Obj(ms), acc, prefix, numText)| == |acc| * Copies(Obj(ms)) + LeafCount(Obj(ms))
  {
    var parts := seq(|ms|, i requires 0 <= i < |ms| => Accumulated(ms[i].1, acc, prefix + [ms[i].0], numText));
    var copies := seq(|ms|, i requires 0 <= i < |ms| => Copies(ms[i].1));
    var counts := seq(|ms|, i requires 0 <= i < |ms| => LeafCount(ms[i].1));
    AccumulatedParts(acc, parts, copies, counts);
  }

  /** The length step of a container, given its children's parts. */
  lemma AccumulatedParts(acc: FlatTokenList, parts: seq<FlatTokenList>, copies: seq<nat>, counts: seq<nat>)
    requires |parts| == |copies| == |counts|
    requires forall i :: 0 <= i < |parts| ==> |parts[i]| == |acc| * copies[i] + counts[i]
    ensures |acc + Concat(parts)| == |acc| * (1 + Sum(copies)) + Sum(counts)
  {
    ConcatLengthLinear(parts, copies, counts, |acc|);
    Distribute(|acc|, Sum(copies));
  }

  // ---------------------------------------------------------------------
  // The reference flattening

  /** One entry per non-Null scalar leaf. */
  lemma {:induction false} LeavesCount(v: Token, prefix: Path, numText: string -> string)
    ensures |Leaves(v, prefix, numText)| == LeafCount(v)
    decreases v
  {
    match v
    case Arr(items) =>
      var parts := seq(|items|, i requires 0 <= i < |items| => Leaves(items[i], prefix + [IndexSegment(i)], numText));
      ConcatLength(parts);
      var lens := seq(|parts|, i requires 0 <= i < |parts| => |parts[i]|);
      var counts := seq(|items|, i requires 0 <= i < |items| => LeafCount(items[i]));
      forall i | 0 <= i < |items| ensures lens[i] == counts[i] {
        LeavesCount(items[i], prefix + [IndexSegment(i)], numText);
      }
      assert lens == counts;
    case Obj(ms) =>
      var parts := seq(|ms|, i requires 0 <= i < |ms| => Leaves(ms[i].1, prefix + [ms[i].0], numText));
      ConcatLength(parts);
      var lens := seq(|parts|, i requires 0 <= i < |parts| => |parts[i]|);
      var counts := seq(|ms|, i requires 0 <= i < |ms| => LeafCount(ms[i].1));
      forall i | 0 <= i < |ms| ensures lens[i] == counts[i] {
        LeavesCount(ms[i].1, prefix + [ms[i].0], numText);
      }
      assert lens == counts;
    case _ =>
  }

  /** Every entry's path extends the prefix it was flattened under. */
  lemma {:induction false} LeavesExtendPrefix(v: Token, prefix: Path, numText: string -> string, e: (Path, string))
    requires e in Leaves(v, prefix, numText)
    ensures prefix <= e.0
    decreases v
  {
    match v
    case Arr(items) =>
      var parts := seq(|items|, i requires 0 <= i < |items| => Leaves(items[i], prefix + [IndexSegment(i)], numText));
      ConcatMembership(parts, e);
      var i :| 0 <= i < |parts| && e in parts[i];
      LeavesExtendPrefix(items[i], prefix + [IndexSegment(i)], numText, e);
    case Obj(ms) =>
      var parts := seq(|ms|, i requires 0 <= i < |ms| => Leaves(ms[i].1, prefix + [ms[i].0], numText));
      ConcatMembership(parts, e);
      var i :| 0 <= i < |parts| && e in parts[i];
      LeavesExtendPrefix(ms[i].1, prefix + [ms[i].0], numText, e);
    case _ =>
  }

  /** The subtree a path leads to: an array segment must be the decimal text
      of a 1-based index, an object segment a key. */
  function Lookup(t: Token, path: Path): Option<Token>
    decreases path
  {
    if path == [] then Some(t)
    else match t
      case Arr(items) =>
        (match ParseNat(path[0])
         case Some(n) => if 1 <= n <= |items| then Lookup(items[n - 1], path[1..]) else None
         case None => None)
      case Obj(ms) =>
        (match Get(ms, path[0])
         case Some(c) => Lookup(c, path[1..])
         case None => None)
      case _ => None
  }

  predicate IsLeaf(r: Option<Token>) { r.Some? && IsScalar(r.value) && !r.value.Null? }

  /** Soundness: every entry names, by its path below the prefix, a non-Null
      scalar leaf of the tree, and carries that leaf's text. */
  lemma {:induction false} LeavesSound(v: Token, prefix: Path, numText: string -> string, e: (Path, string))
    requires RustWf(v)
    requires e in Leaves(v, prefix, numText)
    ensures prefix <= e.0
    ensures IsLeaf(Lookup(v, e.0[|prefix|..]))
    ensures e.1 == LeafText(Lookup(v, e.0[|prefix|..]).value, numText)
    decreases v
  {
    LeavesExtendPrefix(v, prefix, numText, e);
    match v
    case Arr(items) =>
      var parts := ElementLeaves(items, prefix, numText);
      ConcatMembership(parts, e);
      var i :| 0 <= i < |parts| && e in parts[i];
      LeavesSound(items[i], prefix + [IndexSegment(i)], numText, e);
      ElementStep(items, i, prefix, e.0);
    case Obj(ms) =>
      var parts := MemberLeaves(ms, prefix, numText);
      ConcatMembership(parts, e);
      var i :| 0 <= i < |parts| && e in parts[i];
      LeavesSound(ms[i].1, prefix + [ms[i].0], numText, e);
      MemberStep(ms, i, prefix, e.0);
    case Null =>
      assert false;
    case Str(_) =>
      assert e.0[|prefix|..] == [];
    case Num(_) =>
      assert e.0[|prefix|..] == [];
    case Bool(_) =>
      assert e.0[|prefix|..] == [];
  }

  /** Below an array, a path through element `i` starts with its segment. */
  lemma ElementStep(items: seq<Token>, i: nat, prefix: Path, path: Path)
    requires i < |items| && prefix + [IndexSegment(i)] <= path
    ensures Lookup(Arr(items), path[|prefix|..]) == Lookup(items[i], path[|prefix| + 1..])
  {
    var rest := path[|prefix|..];
    assert rest[0] == IndexSegment(i) && rest[1..] == path[|prefix| + 1..];
    ParseNatToString(i + 1);
  }

  /** Below a sorted object, a path through member `i` starts with its key. */
  lemma MemberStep(ms: seq<(string, Token)>, i: nat, prefix: Path, path: Path)
    requires SortedKeys(ms) && i < |ms| && prefix + [ms[i].0] <= path
    ensures Lookup(Obj(ms), path[|prefix|..]) == Lookup(ms[i].1, path[|prefix| + 1..])
  {
    var rest := path[|prefix|..];
    assert rest[0] == ms[i].0 && rest[1..] == path[|prefix| + 1..];
    GetSorted(ms, i);
  }

  /** The flattening of each element of an array, in element order. */
  ghost function ElementLeaves(items: seq<Token>, prefix: Path, numText: string -> string): (parts: seq<FlatTokenList>)
    ensures |parts| == |items|
    ensures forall i :: 0 <= i < |items| ==> parts[i] == Leaves(items[i], prefix + [IndexSegment(i)], numText)
    ensures Concat(parts) == Leaves(Arr(items), prefix, numText)
  {
    seq(|items|, i requires 0 <= i < |items| => Leaves(items[i], prefix + [IndexSegment(i)], numText))
  }

  /** Completeness: every non-Null scalar leaf of the tree has its entry,
      under its path below the prefix. */
  lemma {:induction false} LeavesComplete(v: Token, prefix: Path, numText: string -> string, path: Path)
    requires IsLeaf(Lookup(v, path))
    ensures (prefix + path, LeafText(Lookup(v, path).value, numText)) in Leaves(v, prefix, numText)
    decreases path
  {
    if path == [] {
      assert prefix + path == prefix;
    } else {
      var leaf := Lookup(v, path).value;
      match v
      case Arr(items) =>
        var i := ElementIndex(items, path);
        LeavesComplete(items[i], prefix + [path[0]], numText, path[1..]);
        ChildEntry(items, prefix, numText, i, path, LeafText(leaf, numText));
      case Obj(ms) =>
        var i := MemberIndex(ms, path);
        LeavesComplete(ms[i].1, prefix + [path[0]], numText, path[1..]);
        MemberEntry(ms, prefix, numText, i, path, LeafText(leaf, numText));
    }
  }

  /** The element a path into an array goes through. */
  lemma ElementIndex(items: seq<Token>, path: Path) returns (i: nat)
    requires path != [] && Lookup(Arr(items), path).Some?
    ensures i < |items| && path[0] == IndexSegment(i)
    ensures Lookup(items[i], path[1..]) == Lookup(Arr(items), path)
  {
    i := ParseNat(path[0]).value - 1;
    NatToStringOfParse(path[0]);
  }

  /** The member a path into an object goes through. */
  lemma MemberIndex(ms: seq<(string, Token)>, path: Path) returns (i: nat)
    requires path != [] && Lookup(Obj(ms), path).Some?
    ensures i < |ms| && path[0] == ms[i].0
    ensures Lookup(ms[i].1, path[1..]) == Lookup(Obj(ms), path)
  {
    var c := Get(ms, path[0]).value;
    GetMember(ms, path[0]);
    i :| 0 <= i < |ms| && ms[i] == (path[0], c);
  }

  /** An entry of array child `i` is an entry of the array. */
  lemma ChildEntry(items: seq<Token>, prefix: Path, numText: string -> string, i: nat, path: Path, text: string)
    requires i < |items| && path != [] && path[0] == IndexSegment(i)
    requires (prefix + [path[0]] + path[1..], text) in Leaves(items[i], prefix + [IndexSegment(i)], numText)
    ensures (prefix + path, text) in Leaves(Arr(items), prefix, numText)
  {
    assert prefix + [path[0]] + path[1..] == prefix + path;
    var parts := ElementLeaves(items, prefix, numText);
    assert (prefix + path, text) in parts[i];
    ConcatMembership(parts, (prefix + path, text));
  }

  /** An entry of member `i` is an entry of the object. */
  lemma MemberEntry(ms: seq<(string, Token)>, prefix: Path, numText: string -> string, i: nat, path: Path, text: string)
    requires i < |ms| && path != [] && path[0] == ms[i].0
    requires (prefix + [path[0]] + path[1..], text) in Leaves(ms[i].1, prefix + [ms[i].0], numText)
    ensures (prefix + path, text) in Leaves(Obj(ms), prefix, numText)
  {
    assert prefix + [path[0]] + path[1..] == prefix + path;
    var parts := MemberLeaves(ms, prefix, numText);
    assert (prefix + path, text) in parts[i];
    ConcatMembership(parts, (prefix + path, text));
  }

  /** The flattening of each member of an object, in member order. */
  ghost function MemberLeaves(ms: seq<(string, Token)>, prefix: Path, numText: string -> string): (parts: seq<FlatTokenList>)
    ensures |parts| == |ms|
    ensures forall i :: 0 <= i < |ms| ==> parts[i] == Leaves(ms[i].1, prefix + [ms[i].0], numText)
    ensures Concat(parts) == Leaves(Obj(ms), prefix, numText)
  {
    seq(|ms|, i requires 0 <= i < |ms| => Leaves(ms[i].1, prefix + [ms[i].0], numText))
  }

  /** Array children are numbered from 1: a scalar first element is flattened
      first, under segment "1". */
  lemma ArrayFirstSegment(items: seq<Token>, prefix: Path, numText: string -> string)
    requires items != [] && IsScalar(items[0]) && !items[0].Null?
    ensures |Leaves(Arr(items), prefix, numText)| > 0
    ensures Leaves(Arr(items), prefix, numText)[0] == (prefix + ["1"], LeafText(items[0], numText))
  {
    var parts := seq(|items|, i requires 0 <= i < |items| => Leaves(items[i], prefix + [IndexSegment(i)], numText));
    ConcatCons(parts);
    assert IndexSegment(0) == "1";
  }

  lemma MemberLeavesAppend(a: seq<(string, Token)>, b: seq<(string, Token)>, prefix: Path, numText: string -> string)
    ensures MemberLeaves(a + b, prefix, numText) == MemberLeaves(a, prefix, numText) + MemberLeaves(b, prefix, numText)
  {
    var l := MemberLeaves(a + b, prefix, numText);
    var r := MemberLeaves(a, prefix, numText) + MemberLeaves(b, prefix, numText);
    forall i | 0 <= i < |l| ensures l[i] == r[i] {
      if i < |a| { assert (a + b)[i] == a[i]; } else { assert (a + b)[i] == b[i - |a|]; }
    }
  }

  /** A Null member adds nothing to an object's flattening. */
  lemma NullMemberContributesNothing(front: seq<(string, Token)>, k: string, back: seq<(string, Token)>, prefix: Path, numText: string -> string)
    ensures Leaves(Obj(front + [(k, Null)] + back), prefix, numText) == Leaves(Obj(front + back), prefix, numText)
  {
    var pf := MemberLeaves(front, prefix, numText);
    var pb := MemberLeaves(back, prefix, numText);
    var none := MemberLeaves([(k, Null)], prefix, numText);
    assert none == [[]];
    MemberLeavesAppend(front, [(k, Null)], prefix, numText);
    MemberLeavesAppend(front + [(k, Null)], back, prefix, numText);
    MemberLeavesAppend(front, back, prefix, numText);
    ConcatEmptyPart(pf, pb);
  }

  /** Along `l`, the path segment at `depth` exists and never decreases. */
  ghost predicate KeyOrdered(l: FlatTokenList, depth: nat)
  {
    forall a, b :: 0 <= a < b < |l| ==>
      depth < |l[a].0| && depth < |l[b].0| && (l[a].0[depth] == l[b].0[depth] || StrLess(l[a].0[depth], l[b].0[depth]))
  }

  /** Every entry of `l` has a segment at `depth`, and it is at most `k`. */
  ghost predicate KeysAtMost(l: FlatTokenList, depth: nat, k: string)
  {
    forall e :: e in l ==> depth < |e.0| && (e.0[depth] == k || StrLess(e.0[depth], k))
  }

  /** Object children are flattened in key order: along the flattening of an
      object with sorted keys, the segment right after the prefix never
      decreases. */
  lemma LeavesInKeyOrder(ms: seq<(string, Token)>, prefix: Path, numText: string -> string)
    requires SortedKeys(ms)
    ensures KeyOrdered(Leaves(Obj(ms), prefix, numText), |prefix|)
  {
    var parts := MemberLeaves(ms, prefix, numText);
    if ms != [] {
      KeyOrderUpTo(ms, prefix, numText, |ms|);
      assert parts[..|ms|] == parts;
    }
  }

  /** The segment after the prefix of entries from child `i` is key `i`. */
  lemma ChildSegment(ms: seq<(string, Token)>, prefix: Path, numText: string -> string, i: nat, e: (Path, string))
    requires i < |ms| && e in Leaves(ms[i].1, prefix + [ms[i].0], numText)
    ensures |prefix| < |e.0| && e.0[|prefix|] == ms[i].0
  {
    LeavesExtendPrefix(ms[i].1, prefix + [ms[i].0], numText, e);
    assert (prefix + [ms[i].0])[|prefix|] == ms[i].0;
  }

  /** Appending entries whose segment is `k` after entries whose segments
      are at most `k` keeps the order. */
  lemma KeyOrderedAppend(l1: FlatTokenList, l2: FlatTokenList, depth: nat, k: string)
    requires KeyOrdered(l1, depth) && KeysAtMost(l1, depth, k)
    requires forall e :: e in l2 ==> depth < |e.0| && e.0[depth] == k
    ensures KeyOrdered(l1 + l2, depth) && KeysAtMost(l1 + l2, depth, k)
  {
    var l := l1 + l2;
    forall a, b | 0 <= a < b < |l|
      ensures depth < |l[a].0| && depth < |l[b].0| && (l[a].0[depth] == l[b].0[depth] || StrLess(l[a].0[depth], l[b].0[depth]))
    {
      if b < |l1| {
        assert l[a] == l1[a] && l[b] == l1[b];
      } else if a >= |l1| {
        assert l[a] == l2[a - |l1|] && l[b] == l2[b - |l1|];
      } else {
        assert l[a] == l1[a] && l1[a] in l1;
        assert l[b] == l2[b - |l1|] && l2[b - |l1|] in l2;
      }
    }
  }

  lemma KeysAtMostRaise(l: FlatTokenList, depth: nat, k: string, k': string)
    requires KeysAtMost(l, depth, k) && StrLess(k, k')
    ensures KeysAtMost(l, depth, k')
  {
    forall e | e in l ensures depth < |e.0| && (e.0[depth] == k' || StrLess(e.0[depth], k')) {
      if e.0[depth] != k { StrLessTransitive(e.0[depth], k, k'); }
    }
  }

  lemma {:induction false} KeyOrderUpTo(ms: seq<(string, Token)>, prefix: Path, numText: string -> string, n: nat)
    requires SortedKeys(ms) && 0 < n <= |ms|
    ensures KeyOrdered(Concat(MemberLeaves(ms, prefix, numText)[..n]), |prefix|)
    ensures KeysAtMost(Concat(MemberLeaves(ms, prefix, numText)[..n]), |prefix|, ms[n - 1].0)
  {
    var parts := MemberLeaves(ms, prefix, numText);
    ConcatSnoc(parts, n - 1);
    var init := Concat(parts[..n - 1]);
    var last := parts[n - 1];
    forall e: (Path, string) | e in last ensures |prefix| < |e.0| && e.0[|prefix|] == ms[n - 1].0 {
      ChildSegment(ms, prefix, numText, n - 1, e);
    }
    if n > 1 {
      KeyOrderUpTo(ms, prefix, numText, n - 1);
      KeysAtMostRaise(init, |prefix|, ms[n - 2].0, ms[n - 1].0);
    } else {
      assert parts[..0] == [];
    }
    KeyOrderedAppend(init, last, |prefix|, ms[n - 1].0);
  }

  // ---------------------------------------------------------------------
  // Renderers

  /** `transform_to_json`: always succeeds, with extension `json` and the
      pretty-printed tree as text. */
  function TransformToJson(contents: Token, pretty: Token -> string): (r: Result<(string, string)>)
    ensures r.Ok? && r.value.0 == "json" && r.value.1 == pretty(contents)
  {
    Ok(("json", pretty(contents)))
  }

  /** `transform_to_typescript`: always succeeds, with extension `ts`; the
      pretty-printed tree is recovered intact from the module text. */
  function TransformToTypescript(contents: Token, pretty: Token -> string): (r: Result<(string, string)>)
    ensures r.Ok? && r.value.0 == "ts"
    ensures Render.ExtractThemeData(r.value.1, Render.RustModuleTail) == Some(pretty(contents))
  {
    Render.ModuleRoundTrip(pretty(contents), Render.RustModuleTail);
    Ok(("ts", Render.ModuleText(pretty(contents), Render.RustModuleTail)))
  }

  /** `transform_to_css_variables`: flattens with an empty accumulator and
      renders one `  --name: value;` line per leaf entry inside the
      `:root { ` block; always succeeds, with extension `css`. */
  method TransformToCssVariables(contents: Token, kebab: string -> string, numText: string -> string)
    returns (r: Result<(string, string)>)
    ensures r.Ok? && r.value.0 == "css"
    ensures r.value.1 == Render.CssDocument(Render.RustRootOpen, Render.NamedVars(Leaves(contents, [], numText), kebab))
    ensures Render.Printable(Render.NamedVars(Leaves(contents, [], numText), kebab)) ==>
      Render.ParseCssDocument(Render.RustRootOpen, r.value.1) == Some(Render.NamedVars(Leaves(contents, [], numText), kebab))
  {
    var flatTokenList := ConvertToFlatList(contents, [], [], numText);
    AccumulatedEmpty(contents, [], numText);
    var vars := Render.NamedVars(flatTokenList, kebab);
    if Render.Printable(vars) { Render.CssRoundTrip(Render.RustRootOpen, vars); }
    r := Ok(("css", Render.CssDocument(Render.RustRootOpen, vars)));
  }

  /** `transform_to_scss_variables`: flattens with an empty accumulator and
      renders one `$name: value;` line per leaf entry, newline-joined;
      always succeeds, with extension `scss`. */
  method TransformToScssVariables(contents: Token, kebab: string -> string, numText: string -> string)
    returns (r: Result<(string, string)>)
    ensures r.Ok? && r.value.0 == "scss"
    ensures r.value.1 == Render.ScssDocument(Render.NamedVars(Leaves(contents, [], numText), kebab))
    ensures Render.Printable(Render.NamedVars(Leaves(contents, [], numText), kebab)) ==>
      Render.ParseScssDocument(r.value.1) == Some(Render.NamedVars(Leaves(contents, [], numText), kebab))
  {
    var flatTokenList := ConvertToFlatList(contents, [], [], numText);
    AccumulatedEmpty(contents, [], numText);
    var vars := Render.NamedVars(flatTokenList, kebab);
    if Render.Printable(vars) { Render.ScssRoundTrip(vars); }
    r := Ok(("scss", Render.ScssDocument(vars)));
  }
}
