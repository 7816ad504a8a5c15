/** The JavaScript tool (javascript/src/index.ts and its compiled twin
    javascript/dist/index.js): `convertToFlatList`, the key naming of the
    variable renderers, the four `transformTo*` renderers, `isTokenObject`,
    the extension check of `run` and the transform switch of
    `transformFile`.

    Unlike the Rust flattener, this one drops every falsy value (`null`,
    `false`, `""`, a zero) and does not descend into arrays: each array
    element becomes one entry as it is, under its 1-based index. Object
    members are visited in `Object.keys` order, which is the order of the
    member sequence here.

    `JSON.stringify`, `js-yaml`'s `safeLoad`, `JSON.parse`,
    `pluralize.singular` and the number-to-text conversion of a template
    literal are foreign; they are the fields of `Library`. */
module JsIndex {
  import opened Seqs
  import opened Decimal
  import opened Tokens
  import Render
  import JsHelpers

  /** A path segment: an object key, or the 1-based index a number keeps. */
  datatype Segment = Key(key: string) | Index(index: nat)

  type PrefixList = seq<Segment>
  /** An entry keeps the raw value: an array element may be any node. */
  type FlatToken = (PrefixList, Token)
  type FlatTokenList = seq<FlatToken>

  /** A number literal denoting zero (`0`, `-0`, `0.00`, `0e5`): no digit
      other than `0` before the exponent. */
  predicate ZeroLiteral(s: string)
  {
    s == [] || s[0] == 'e' || s[0] == 'E' || (s[0] in "+-.0" && ZeroLiteral(s[1..]))
  }

  /** The values `!value` is true of. */
  predicate Falsy(t: Token)
  {
    match t
    case Null => true
    case Bool(b) => !b
    case Str(s) => s == ""
    case Num(lit) => ZeroLiteral(lit)
    case _ => false
  }

  /** `convertToFlatList`: a falsy value gives back the accumulator; an
      array gives one entry per element; an object gives, in key order,
      what flattening each child gives (each child flattened with the same
      accumulator and the key appended to the prefix); any other value one
      entry under the prefix. The result is the accumulator followed by the
      new entries. */
  function ConvertToFlatList(value: Token, valueList: FlatTokenList, prefixes: PrefixList): (r: FlatTokenList)
    ensures valueList <= r
    ensures Falsy(value) ==> r == valueList
    decreases value
  {
    if Falsy(value) then valueList
    else
      valueList +
      match value
      case Arr(items) => seq(|items|, i requires 0 <= i < |items| => (prefixes + [Index(i + 1)], items[i]))
      case Obj(ms) =>
        Concat(seq(|ms|, i requires 0 <= i < |ms| => ConvertToFlatList(ms[i].1, valueList, prefixes + [Key(ms[i].0)])))
      case _ => [(prefixes, value)]
  }

  /** The lists an object's members contribute, in key order. */
  function MemberLists(ms: seq<(string, Token)>, valueList: FlatTokenList, prefixes: PrefixList): (parts: seq<FlatTokenList>)
    ensures |parts| == |ms|
    ensures forall i :: 0 <= i < |ms| ==> parts[i] == ConvertToFlatList(ms[i].1, valueList, prefixes + [Key(ms[i].0)])
    ensures ConvertToFlatList(Obj(ms), valueList, prefixes) == valueList + Concat(parts)
  {
    seq(|ms|, i requires 0 <= i < |ms| => ConvertToFlatList(ms[i].1, valueList, prefixes + [Key(ms[i].0)]))
  }

  // ---------------------------------------------------------------------
  // Properties of the flattener

  /** A falsy value contributes no entry: the accumulator comes back
      unchanged. */
  lemma FalsyContributesNothing(value: Token, valueList: FlatTokenList, prefixes: PrefixList)
    requires Falsy(value)
    ensures ConvertToFlatList(value, valueList, prefixes) == valueList
  {
  }

  /** A truthy scalar contributes exactly one entry, the value itself under
      the prefix, after the accumulator. */
  lemma ScalarEntry(value: Token, valueList: FlatTokenList, prefixes: PrefixList)
    requires IsScalar(value) && !Falsy(value)
    ensures ConvertToFlatList(value, valueList, prefixes) == valueList + [(prefixes, value)]
  {
  }

  /** An array, even an empty one, is not descended into: element i is one
      entry, as it is, under the prefix extended by the number i + 1. */
  lemma ArrayEntries(items: seq<Token>, valueList: FlatTokenList, prefixes: PrefixList)
    ensures |ConvertToFlatList(Arr(items), valueList, prefixes)| == |valueList| + |items|
    ensures forall i :: 0 <= i < |items| ==>
      ConvertToFlatList(Arr(items), valueList, prefixes)[|valueList| + i] == (prefixes + [Index(i + 1)], items[i])
  {
  }

  /** A falsy member of an object contributes nothing to the object's
      entries: with an empty accumulator, dropping the member changes
      nothing. */
  lemma FalsyMemberDropped(front: seq<(string, Token)>, m: (string, Token), back: seq<(string, Token)>, prefixes: PrefixList)
    requires Falsy(m.1)
    ensures ConvertToFlatList(Obj(front + [m] + back), [], prefixes) == ConvertToFlatList(Obj(front + back), [], prefixes)
  {
    var f := MemberLists(front, [], prefixes);
    var b := MemberLists(back, [], prefixes);
    assert MemberLists([m], [], prefixes) == [[]];
    MemberListsAppend(front, [m], [], prefixes);
    MemberListsAppend(front + [m], back, [], prefixes);
    MemberListsAppend(front, back, [], prefixes);
    ConcatEmptyPart(f, b);
  }

  lemma MemberListsAppend(a: seq<(string, Token)>, b: seq<(string, Token)>, valueList: FlatTokenList, prefixes: PrefixList)
    ensures MemberLists(a + b, valueList, prefixes) == MemberLists(a, valueList, prefixes) + MemberLists(b, valueList, prefixes)
  {
    var l := MemberLists(a + b, valueList, prefixes);
    var r := MemberLists(a, valueList, prefixes) + MemberLists(b, valueList, prefixes);
    forall i | 0 <= i < |l| ensures l[i] == r[i] {
      if i < |a| { assert (a + b)[i] == a[i]; } else { assert (a + b)[i] == b[i - |a|]; }
    }
  }

  /** The number of entries the flattening lists: none for a falsy value,
      one per element of an array, the members' counts for an object, one
      for any other value. */
  function EntryCount(v: Token): nat
    decreases v
  {
    if Falsy(v) then 0
    else match v
      case Arr(items) => |items|
      case Obj(ms) => Sum(seq(|ms|, i requires 0 <= i < |ms| => EntryCount(ms[i].1)))
      case _ => 1
  }

  /** With the empty accumulator of the renderers, the flattening has one
      entry per counted value. */
  lemma {:induction false} EntryCountIs(v: Token, prefixes: PrefixList)
    ensures |ConvertToFlatList(v, [], prefixes)| == EntryCount(v)
    decreases v
  {
    if !Falsy(v) && v.Obj? {
      var ms := v.members;
      var parts := MemberLists(ms, [], prefixes);
      ConcatLength(parts);
      var lens := seq(|parts|, i requires 0 <= i < |parts| => |parts[i]|);
      var counts := seq(|ms|, i requires 0 <= i < |ms| => EntryCount(ms[i].1));
      forall i | 0 <= i < |ms| ensures lens[i] == counts[i] {
        EntryCountIs(ms[i].1, prefixes + [Key(ms[i].0)]);
      }
      assert lens == counts;
    }
  }

  // ---------------------------------------------------------------------
  // Which entries the flattening lists

  /** Keys are unique in every object, as in any value `JSON.parse` or
      `safeLoad` produces. */
  predicate DistinctKeys(ms: seq<(string, Token)>)
  {
    forall i, j :: 0 <= i < j < |ms| ==> ms[i].0 != ms[j].0
  }

  predicate JsWf(t: Token)
  {
    match t
    case Arr(items) => forall i :: 0 <= i < |items| ==> JsWf(items[i])
    case Obj(ms) => DistinctKeys(ms) && forall i :: 0 <= i < |ms| ==> JsWf(ms[i].1)
    case _ => true
  }

  /** With unique keys, each member is found under its own key. */
  lemma {:induction false} GetDistinct(ms: seq<(string, Token)>, j: nat)
    requires DistinctKeys(ms) && j < |ms|
    ensures Get(ms, ms[j].0) == Some(ms[j].1)
  {
    if j > 0 {
      assert ms[0].0 != ms[j].0;
      assert DistinctKeys(ms[1..]) by {
        forall a, b | 0 <= a < b < |ms[1..]| ensures ms[1..][a].0 != ms[1..][b].0 {
          assert ms[1..][a] == ms[a + 1] && ms[1..][b] == ms[b + 1];
        }
      }
      GetDistinct(ms[1..], j - 1);
      assert ms[1..][j - 1] == ms[j];
    }
  }

  /** The node a path leads to: a `Key` segment selects an object member,
      an `Index` segment the 1-based element of an array. */
  function Lookup(t: Token, path: PrefixList): Option<Token>
    decreases path
  {
    if path == [] then Some(t)
    else match t
      case Arr(items) =>
        (match path[0]
         case Index(n) => if 1 <= n <= |items| then Lookup(items[n - 1], path[1..]) else None
         case Key(_) => None)
      case Obj(ms) =>
        (match path[0]
         case Key(k) =>
           (match Get(ms, k)
            case Some(c) => Lookup(c, path[1..])
            case None => None)
         case Index(_) => None)
      case _ => None
  }

  predicate KeyPath(path: PrefixList)
  {
    forall i :: 0 <= i < |path| ==> path[i].Key?
  }

  /** What the flattening lists for a node at `path`: a truthy scalar
      reached through keys alone, or any element of an array reached
      through keys alone. */
  predicate Listed(path: PrefixList, t: Token)
  {
    (KeyPath(path) && IsScalar(t) && !Falsy(t)) ||
    (path != [] && KeyPath(path[..|path| - 1]) && path[|path| - 1].Index?)
  }

  /** Soundness: every entry names, by its path below the prefix, a listed
      node of the tree, and carries that node. */
  lemma {:induction false} EntriesSound(v: Token, prefixes: PrefixList, e: FlatToken)
    requires JsWf(v)
    requires e in ConvertToFlatList(v, [], prefixes)
    ensures prefixes <= e.0
    ensures Lookup(v, e.0[|prefixes|..]) == Some(e.1)
    ensures Listed(e.0[|prefixes|..], e.1)
    decreases v
  {
    if Falsy(v) {
      assert false;
    } else if v.Arr? {
      SoundElement(v.items, prefixes, e);
    } else if v.Obj? {
      var ms := v.members;
      var parts := MemberLists(ms, [], prefixes);
      ConcatMembership(parts, e);
      var i :| 0 <= i < |parts| && e in parts[i];
      EntriesSound(ms[i].1, prefixes + [Key(ms[i].0)], e);
      SoundMember(ms, i, prefixes, e);
    } else {
      assert e == (prefixes, v);
      assert e.0[|prefixes|..] == [];
    }
  }

  lemma SoundElement(items: seq<Token>, prefixes: PrefixList, e: FlatToken)
    requires e in ConvertToFlatList(Arr(items), [], prefixes)
    ensures prefixes <= e.0
    ensures Lookup(Arr(items), e.0[|prefixes|..]) == Some(e.1)
    ensures Listed(e.0[|prefixes|..], e.1)
  {
    var i := ElementIndex(items, prefixes, e);
    var q := e.0[|prefixes|..];
    assert q == [Index(i + 1)];
    assert q[..0] == [];
    LookupElement(items, i);
  }

  /** An entry of an array's flattening is some element under its number. */
  lemma ElementIndex(items: seq<Token>, prefixes: PrefixList, e: FlatToken) returns (i: nat)
    requires e in ConvertToFlatList(Arr(items), [], prefixes)
    ensures i < |items| && e == (prefixes + [Index(i + 1)], items[i])
  {
    var l := ConvertToFlatList(Arr(items), [], prefixes);
    ArrayEntries(items, [], prefixes);
    i :| 0 <= i < |l| && l[i] == e;
  }

  lemma LookupElement(items: seq<Token>, i: nat)
    requires i < |items|
    ensures Lookup(Arr(items), [Index(i + 1)]) == Some(items[i])
  {
    var path := [Index(i + 1)];
    assert path[1..] == [];
  }

  lemma SoundMember(ms: seq<(string, Token)>, i: nat, prefixes: PrefixList, e: FlatToken)
    requires DistinctKeys(ms) && i < |ms|
    requires prefixes + [Key(ms[i].0)] <= e.0
    requires Lookup(ms[i].1, e.0[|prefixes| + 1..]) == Some(e.1)
    requires Listed(e.0[|prefixes| + 1..], e.1)
    ensures prefixes <= e.0
    ensures Lookup(Obj(ms), e.0[|prefixes|..]) == Some(e.1)
    ensures Listed(e.0[|prefixes|..], e.1)
  {
    GetDistinct(ms, i);
    var rest := e.0[|prefixes| + 1..];
    assert e.0[|prefixes|..] == [Key(ms[i].0)] + rest;
    ListedUnderKey(ms[i].0, rest, e.1);
  }

  lemma ListedUnderKey(k: string, rest: PrefixList, t: Token)
    requires Listed(rest, t)
    ensures Listed([Key(k)] + rest, t)
  {
    var path := [Key(k)] + rest;
    if rest != [] {
      assert path[..|path| - 1] == [Key(k)] + rest[..|rest| - 1];
    }
  }

  /** Completeness: every listed node of the tree gives an entry, under its
      path below the prefix. */
  lemma {:induction false} EntriesComplete(v: Token, prefixes: PrefixList, path: PrefixList)
    requires Lookup(v, path).Some? && Listed(path, Lookup(v, path).value)
    ensures (prefixes + path, Lookup(v, path).value) in ConvertToFlatList(v, [], prefixes)
    decreases path
  {
    var t := Lookup(v, path).value;
    if path == [] {
      assert prefixes + path == prefixes;
      assert ConvertToFlatList(v, [], prefixes) == [(prefixes, v)];
    } else {
      match v
      case Arr(items) =>
        CompleteElement(items, prefixes, path);
      case Obj(ms) =>
        var k := path[0].key;
        var c := Get(ms, k).value;
        GetMember(ms, k);
        var j :| 0 <= j < |ms| && ms[j] == (k, c);
        var rest := path[1..];
        ListedTail(path, t);
        var pre := prefixes + [Key(k)];
        EntriesComplete(c, pre, rest);
        CompleteMember(ms, j, prefixes, path, t);
    }
  }

  lemma CompleteElement(items: seq<Token>, prefixes: PrefixList, path: PrefixList)
    requires path != [] && Lookup(Arr(items), path).Some?
    requires Listed(path, Lookup(Arr(items), path).value)
    ensures (prefixes + path, Lookup(Arr(items), path).value) in ConvertToFlatList(Arr(items), [], prefixes)
  {
    var n := path[0].index;
    assert !KeyPath(path);
    assert path == [Index(n)];
    assert Lookup(Arr(items), path).value == items[n - 1];
    ElementEntry(items, prefixes, n);
  }

  /** Element n of an array is listed under its number. */
  lemma ElementEntry(items: seq<Token>, prefixes: PrefixList, n: nat)
    requires 1 <= n <= |items|
    ensures (prefixes + [Index(n)], items[n - 1]) in ConvertToFlatList(Arr(items), [], prefixes)
  {
    ArrayEntries(items, [], prefixes);
    var l := ConvertToFlatList(Arr(items), [], prefixes);
    assert l[n - 1] == (prefixes + [Index(n)], items[n - 1]);
  }

  /** Below a key, a listed path stays listed. */
  lemma ListedTail(path: PrefixList, t: Token)
    requires path != [] && path[0].Key? && Listed(path, t)
    ensures Listed(path[1..], t)
  {
    var rest := path[1..];
    if !KeyPath(path) {
      assert rest != [];
      assert rest[..|rest| - 1] == path[..|path| - 1][1..];
    }
  }

  lemma CompleteMember(ms: seq<(string, Token)>, j: nat, prefixes: PrefixList, path: PrefixList, t: Token)
    requires j < |ms| && path != [] && path[0] == Key(ms[j].0)
    requires ((prefixes + [Key(ms[j].0)]) + path[1..], t) in ConvertToFlatList(ms[j].1, [], prefixes + [Key(ms[j].0)])
    ensures (prefixes + path, t) in ConvertToFlatList(Obj(ms), [], prefixes)
  {
    assert (prefixes + [Key(ms[j].0)]) + path[1..] == prefixes + path;
    var parts := MemberLists(ms, [], prefixes);
    assert (prefixes + path, t) in parts[j];
    ConcatMembership(parts, (prefixes + path, t));
  }

  // ---------------------------------------------------------------------
  // Rendering

  /** The foreign functions the tool calls. `parseJson` and `safeLoad`
      report a syntax error as `Err`; `safeLoad` gives `None` for a document
      that denotes `undefined`. */
  datatype Library = Library(
    stringify: Token -> string,
    singular: string -> string,
    numText: string -> string,
    safeLoad: string -> Result<Option<Token>>,
    parseJson: string -> Result<Token>)

  /** `transformKeyName`: a numeric segment becomes its decimal text, with
      no singularising or dashing; a key becomes `toDashCase(singular(key))`. */
  function TransformKeyName(singular: string -> string, keyName: Segment): (r: string)
    ensures keyName.Index? ==> ParseNat(r) == Some(keyName.index)
    ensures keyName.Key? ==> r == JsHelpers.ToDashCase(singular(keyName.key))
    ensures keyName.Key? ==> ' ' !in r && forall c :: c in r ==> !JsHelpers.IsUpper(c)
  {
    match keyName
    case Index(n) => ParseNatToString(n); NatToString(n)
    case Key(k) => JsHelpers.ToDashCase(singular(k))
  }

  function KeyNamer(singular: string -> string): Segment -> string
  {
    s => TransformKeyName(singular, s)
  }

  /** What a template literal `${value}` prints: arrays are joined by commas
      with their `null` elements printed as nothing, objects print as
      `[object Object]`. */
  function TemplateText(v: Token, numText: string -> string): string
    decreases v
  {
    match v
    case Null => "null"
    case Bool(b) => if b then "true" else "false"
    case Num(lit) => numText(lit)
    case Str(s) => s
    case Arr(items) =>
      Join(seq(|items|, i requires 0 <= i < |items| =>
        if items[i].Null? then "" else TemplateText(items[i], numText)), ",")
    case Obj(_) => "[object Object]"
  }

  /** The (name, value) pairs both variable renderers print: one per entry
      of the flattening, in list order. */
  function Variables(tokenJSON: Token, lib: Library): (vars: seq<Render.Var>)
    ensures |vars| == |ConvertToFlatList(tokenJSON, [], [])|
    ensures forall i :: 0 <= i < |vars| ==>
      vars[i].0 == Render.VariableName(ConvertToFlatList(tokenJSON, [], [])[i].0, KeyNamer(lib.singular)) &&
      vars[i].1 == TemplateText(ConvertToFlatList(tokenJSON, [], [])[i].1, lib.numText)
  {
    var list := ConvertToFlatList(tokenJSON, [], []);
    var texts := seq(|list|, i requires 0 <= i < |list| => (list[i].0, TemplateText(list[i].1, lib.numText)));
    Render.NamedVars(texts, KeyNamer(lib.singular))
  }

  /** `transformToJSON`: the tree as `JSON.stringify(tokenJSON, null, 2)`
      prints it, under the extension `json`. */
  function TransformToJson(tokenJSON: Token, lib: Library): (r: (string, string))
    ensures r.0 == "json" && r.1 == lib.stringify(tokenJSON)
  {
    ("json", lib.stringify(tokenJSON))
  }

  /** `transformToTypescript`: the printed tree inside the typed-module
      template, under the extension `ts`; the tree is recovered intact from
      the text. */
  function TransformToTypescript(tokenJSON: Token, lib: Library): (r: (string, string))
    ensures r.0 == "ts"
    ensures |r.1| >= |Render.ModuleHead| && r.1[..|Render.ModuleHead|] == Render.ModuleHead
    ensures Render.ExtractThemeData(r.1, Render.JsModuleTail) == Some(lib.stringify(tokenJSON))
  {
    Render.ModuleRoundTrip(lib.stringify(tokenJSON), Render.JsModuleTail);
    ("ts", Render.ModuleText(lib.stringify(tokenJSON), Render.JsModuleTail))
  }

  /** `transformToCSSVariables`: one `  --name: value;` line per entry, in
      list order, inside the `:root {` block (no space after the brace),
      under the extension `css`; reading the text back yields the entries'
      names and values. */
  function TransformToCssVariables(tokenJSON: Token, lib: Library): (r: (string, string))
    ensures r == ("css", Render.CssDocument(Render.JsRootOpen, Variables(tokenJSON, lib)))
    ensures |r.1| >= |Render.JsRootOpen| && r.1[..|Render.JsRootOpen|] == Render.JsRootOpen
    ensures Render.Printable(Variables(tokenJSON, lib)) ==>
      Render.ParseCssDocument(Render.JsRootOpen, r.1) == Some(Variables(tokenJSON, lib))
  {
    var vars := Variables(tokenJSON, lib);
    var text := Render.CssDocument(Render.JsRootOpen, vars);
    assert text[..|Render.JsRootOpen|] == Render.JsRootOpen;
    if Render.Printable(vars) then
      Render.CssRoundTrip(Render.JsRootOpen, vars);
      ("css", text)
    else ("css", text)
  }

  /** `transformToSCSSVariables`: one `$name: value;` line per entry, in
      list order, joined by newlines, under the extension `scss`; reading
      the text back yields the entries' names and values. */
  function TransformToScssVariables(tokenJSON: Token, lib: Library): (r: (string, string))
    ensures r == ("scss", Render.ScssDocument(Variables(tokenJSON, lib)))
    ensures Render.Printable(Variables(tokenJSON, lib)) ==>
      Render.ParseScssDocument(r.1) == Some(Variables(tokenJSON, lib))
  {
    var vars := Variables(tokenJSON, lib);
    if Render.Printable(vars) then
      Render.ScssRoundTrip(vars);
      ("scss", Render.ScssDocument(vars))
    else ("scss", Render.ScssDocument(vars))
  }

  // ---------------------------------------------------------------------
  // The run

  datatype TransformType = Json | Css | Scss | Ts
  datatype SourceFileType = YamlFile | JsonFile

  function TypeName(t: TransformType): string
  {
    match t
    case Json => "json"
    case Css => "css"
    case Scss => "scss"
    case Ts => "ts"
  }

  /** `config.transforms`, in the order the outputs are produced. */
  const ConfigTransforms: seq<TransformType> := [Json, Css, Scss, Ts]

  /** The `switch` of `transformFile`: the renderer each transform runs;
      its output carries the transform's name as its extension. */
  function TransformWith(t: TransformType, tokenJSON: Token, lib: Library): (r: (string, string))
    ensures r.0 == TypeName(t)
  {
    match t
    case Json => TransformToJson(tokenJSON, lib)
    case Ts => TransformToTypescript(tokenJSON, lib)
    case Css => TransformToCssVariables(tokenJSON, lib)
    case Scss => TransformToScssVariables(tokenJSON, lib)
  }

  /** `isTokenObject`: defined and not `null`, and of type `object`, that
      is an array or an object; such a value is never falsy. */
  function IsTokenObject(value: Option<Token>): (r: bool)
    ensures r <==> value.Some? && !IsScalar(value.value)
    ensures r ==> !Falsy(value.value)
  {
    value.Some? && (value.value.Arr? || value.value.Obj?)
  }

  function UnsupportedExtension(fileType: string): string
  {
    "'" + fileType + "' is not a supported extension type.  Please us a yaml or json file."
  }

  const NotTokenObject: string := "File contents are not structured in a way that would allow for token conversion"

  /** The extension check of `run`: `json`, `yml` and `yaml` are accepted,
      `yml` read as `yaml`; any other extension fails the run. */
  function SourceType(fileType: string): (r: Result<SourceFileType>)
    ensures r.Ok? <==> fileType == "json" || fileType == "yml" || fileType == "yaml"
    ensures r.Ok? ==> (r.value == JsonFile <==> fileType == "json")
    ensures r.Err? ==> r.message == UnsupportedExtension(fileType)
  {
    if fileType == "json" then Ok(JsonFile)
    else if fileType == "yml" || fileType == "yaml" then Ok(YamlFile)
    else Err(UnsupportedExtension(fileType))
  }

  /** The parse of `transformFile`: `safeLoad` for YAML, which may yield
      `undefined`; `JSON.parse` for JSON, which fails or yields a value. */
  function Parse(fileType: SourceFileType, contents: string, lib: Library): (r: Result<Option<Token>>)
    ensures fileType == YamlFile ==> r == lib.safeLoad(contents)
    ensures fileType == JsonFile ==> (r.Ok? <==> lib.parseJson(contents).Ok?)
    ensures fileType == JsonFile && r.Ok? ==> r.value == Some(lib.parseJson(contents).value)
    ensures fileType == JsonFile && r.Err? ==> r.message == lib.parseJson(contents).message
  {
    match fileType
    case YamlFile => lib.safeLoad(contents)
    case JsonFile =>
      (match lib.parseJson(contents)
       case Ok(v) => Ok(Some(v))
       case Err(m) => Err(m))
  }

  /** `transformFile`: a parsed value that is not a token object fails the
      run; otherwise every configured transform is applied to it, giving
      the (extension, text) pair of each output file, in configuration
      order. */
  function TransformFile(fileType: SourceFileType, contents: string, lib: Library): (r: Result<seq<(string, string)>>)
    ensures r.Ok? <==> Parse(fileType, contents, lib).Ok? && IsTokenObject(Parse(fileType, contents, lib).value)
    ensures Parse(fileType, contents, lib).Ok? && !IsTokenObject(Parse(fileType, contents, lib).value) ==>
      r == Err(NotTokenObject)
    ensures r.Ok? ==> |r.value| == |ConfigTransforms| && forall i :: 0 <= i < |ConfigTransforms| ==>
      r.value[i] == TransformWith(ConfigTransforms[i], Parse(fileType, contents, lib).value.value, lib)
  {
    match Parse(fileType, contents, lib)
    case Err(m) => Err(m)
    case Ok(tmpval) =>
      if IsTokenObject(tmpval) then
        Ok(seq(|ConfigTransforms|, i requires 0 <= i < |ConfigTransforms| => TransformWith(ConfigTransforms[i], tmpval.value, lib)))
      else Err(NotTokenObject)
  }

  /** `run`, after the existence check: the extension check, then
      `transformFile`; a run succeeds only for a supported extension, with
      one output per configured transform, named by its extension. */
  function Run(fileType: string, contents: string, lib: Library): (r: Result<seq<(string, string)>>)
    ensures r.Ok? ==> fileType == "json" || fileType == "yml" || fileType == "yaml"
    ensures r.Ok? ==> (|r.value| == |ConfigTransforms| &&
      forall i :: 0 <= i < |r.value| ==> r.value[i].0 == TypeName(ConfigTransforms[i]))
    ensures SourceType(fileType).Ok? ==> r == TransformFile(SourceType(fileType).value, contents, lib)
  {
    match SourceType(fileType)
    case Err(m) => Err(m)
    case Ok(t) => TransformFile(t, contents, lib)
  }

  /** An unsupported extension fails the run before anything is read. */
  lemma RunRejectsExtension(fileType: string, contents: string, lib: Library)
    requires fileType != "json" && fileType != "yml" && fileType != "yaml"
    ensures Run(fileType, contents, lib) == Err(UnsupportedExtension(fileType))
  {
    assert SourceType(fileType).Err?;
  }

  /** `yml` and `yaml` are the same source type. */
  lemma YmlIsYaml(contents: string, lib: Library)
    ensures Run("yml", contents, lib) == Run("yaml", contents, lib)
  {
  }

  /** A document whose value is a scalar, `null` or `undefined` fails the
      run. */
  lemma RunRejectsScalar(fileType: string, contents: string, lib: Library)
    requires SourceType(fileType).Ok?
    requires Parse(SourceType(fileType).value, contents, lib) == Ok(None) ||
      (Parse(SourceType(fileType).value, contents, lib).Ok? &&
       Parse(SourceType(fileType).value, contents, lib).value.Some? &&
       IsScalar(Parse(SourceType(fileType).value, contents, lib).value.value))
    ensures Run(fileType, contents, lib) == Err(NotTokenObject)
  {
  }

  /** A successful run writes four files, with the extensions `json`,
      `css`, `scss` and `ts` in that order, holding the four renderings of
      the parsed tree. */
  lemma RunOutputs(fileType: string, contents: string, lib: Library)
    requires Run(fileType, contents, lib).Ok?
    ensures var tree := Parse(SourceType(fileType).value, contents, lib).value.value;
      Run(fileType, contents, lib).value ==
        [TransformToJson(tree, lib), TransformToCssVariables(tree, lib),
         TransformToScssVariables(tree, lib), TransformToTypescript(tree, lib)]
    ensures var outs := Run(fileType, contents, lib).value;
      |outs| == 4 && outs[0].0 == "json" && outs[1].0 == "css" && outs[2].0 == "scss" && outs[3].0 == "ts"
  {
    var tree := Parse(SourceType(fileType).value, contents, lib).value.value;
    ConfigOutputs(Run(fileType, contents, lib).value, tree, lib);
  }

  lemma ConfigOutputs(outs: seq<(string, string)>, tree: Token, lib: Library)
    requires |outs| == |ConfigTransforms|
    requires forall i :: 0 <= i < |ConfigTransforms| ==> outs[i] == TransformWith(ConfigTransforms[i], tree, lib)
    ensures outs == [TransformToJson(tree, lib), TransformToCssVariables(tree, lib),
                     TransformToScssVariables(tree, lib), TransformToTypescript(tree, lib)]
  {
    assert outs[0] == TransformWith(Json, tree, lib);
    assert outs[1] == TransformWith(Css, tree, lib);
    assert outs[2] == TransformWith(Scss, tree, lib);
    assert outs[3] == TransformWith(Ts, tree, lib);
  }
}
