/** The format selection of the newer Rust command-line tool
    (rust/src/main.rs): which outputs a run produces, and under which file
    extension.

    The `Transform` enum and its `process` method are not part of this
    model; its variants are taken to be named `css`, `scss`, `json` and
    `ts`, in that order, with `from_str` an exact match on those names, and
    `process` is a parameter. */
module CrateMain {
  import opened Seqs

  datatype Transform = Css | Scss | Json | Ts

  /** The variant's name: its `to_string()` and its entry in `VARIANTS`. */
  function Name(t: Transform): string
  {
    match t
    case Css => "css"
    case Scss => "scss"
    case Json => "json"
    case Ts => "ts"
  }

  /** `Transform::VARIANTS`, in declaration order. */
  const Variants: seq<string> := ["css", "scss", "json", "ts"]

  /** `Transform::from_str`: the variant with exactly that name. */
  function FromStr(s: string): (r: Option<Transform>)
    ensures r.Some? <==> s in Variants
    ensures r.Some? ==> Name(r.value) == s
  {
    if s == "css" then Some(Css)
    else if s == "scss" then Some(Scss)
    else if s == "json" then Some(Json)
    else if s == "ts" then Some(Ts)
    else None
  }

  /** Every variant's name parses back to it, and the variant list is the
      list of the variants' names. */
  lemma FromStrName(t: Transform)
    ensures FromStr(Name(t)) == Some(t)
    ensures Name(t) in Variants
  {
  }

  lemma VariantsAreNames()
    ensures Variants == [Name(Css), Name(Scss), Name(Json), Name(Ts)]
    ensures forall s :: s in Variants ==> FromStr(s).Some?
  {
  }

  /** The requested format names: the variant names when none were given,
      the request verbatim otherwise. */
  function FileTypes(requested: seq<string>): (r: seq<string>)
    ensures |r| >= 1
    ensures requested == [] ==> r == Variants
    ensures requested != [] ==> r == requested
  {
    if requested == [] then Variants else requested
  }

  /** The requested names that name a format, in request order. */
  function Supported(names: seq<string>): (r: seq<string>)
    ensures |r| <= |names|
    ensures forall s :: s in r <==> s in names && s in Variants
  {
    if names == [] then []
    else (if names[0] in Variants then [names[0]] else []) + Supported(names[1..])
  }

  /** The `filter_map` over `Transform::from_str`: each name that parses
      gives its variant; any other name is reported and skipped. */
  function SelectTransforms(names: seq<string>): (r: seq<Transform>)
    ensures |r| <= |names|
  {
    if names == [] then []
    else
      (match FromStr(names[0])
       case Some(t) => [t]
       case None => []) + SelectTransforms(names[1..])
  }

  function Names(ts: seq<Transform>): (r: seq<string>)
    ensures |r| == |ts|
    ensures forall i :: 0 <= i < |ts| ==> r[i] == Name(ts[i])
  {
    seq(|ts|, i requires 0 <= i < |ts| => Name(ts[i]))
  }

  /** The selected formats' names are the requested names that name a
      format, in request order: one output per supported name, and none for
      any other. */
  lemma {:induction false} SelectedNames(names: seq<string>)
    ensures Names(SelectTransforms(names)) == Supported(names)
  {
    if names != [] {
      SelectedNames(names[1..]);
      var rest := SelectTransforms(names[1..]);
      match FromStr(names[0])
      case Some(t) =>
        assert SelectTransforms(names) == [t] + rest;
        assert Names([t] + rest) == [Name(t)] + Names(rest);
      case None =>
        assert SelectTransforms(names) == rest;
    }
  }

  /** The number of outputs is the number of requested names that parse. */
  lemma SelectedCount(names: seq<string>)
    ensures |SelectTransforms(names)| == |Supported(names)|
  {
    SelectedNames(names);
  }

  lemma {:induction false} SelectAppend(a: seq<string>, b: seq<string>)
    ensures SelectTransforms(a + b) == SelectTransforms(a) + SelectTransforms(b)
  {
    if a == [] {
      assert a + b == b;
    } else {
      assert (a + b)[1..] == a[1..] + b;
      SelectAppend(a[1..], b);
    }
  }

  /** An unsupported name is skipped without affecting the others. */
  lemma UnknownSkipped(front: seq<string>, unknown: string, back: seq<string>)
    requires unknown !in Variants
    ensures SelectTransforms(front + [unknown] + back) == SelectTransforms(front + back)
  {
    SelectAppend(front + [unknown], back);
    SelectAppend(front, [unknown]);
    SelectAppend(front, back);
    assert SelectTransforms([unknown]) == [];
  }

  /** A run with no requested formats produces all four, in variant order. */
  lemma DefaultSelection()
    ensures SelectTransforms(FileTypes([])) == [Css, Scss, Json, Ts]
  {
    var v := Variants;
    assert v[1..] == ["scss", "json", "ts"];
    assert v[1..][1..] == ["json", "ts"];
    assert v[1..][1..][1..] == ["ts"];
    assert v[1..][1..][1..][1..] == [];
  }

  /** The files a run writes, as (extension, text) pairs: one per selected
      format, the extension being the format's name and the text what
      `process` renders for it. */
  function Outputs<C>(requested: seq<string>, contents: C, process: (Transform, C) -> string): (r: seq<(string, string)>)
    ensures |r| == |Supported(FileTypes(requested))|
    ensures forall i :: 0 <= i < |r| ==> r[i].0 == Supported(FileTypes(requested))[i]
  {
    var ts := SelectTransforms(FileTypes(requested));
    SelectedNames(FileTypes(requested));
    seq(|ts|, i requires 0 <= i < |ts| => (Name(ts[i]), process(ts[i], contents)))
  }
}
