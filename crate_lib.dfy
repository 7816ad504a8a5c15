/** The newer Rust crate's renderers (rust/src/lib.rs): `json`,
    `typescript`, `scss_variables` and `css_variables`. The two variable
    renderers take an already flattened list; the crate's own flattener is
    not part of this model.

    A variable name is built segment by segment with inflector's
    `to_kebab_case(to_singular(segment))`; both foreign functions are
    parameters, as is the `{:#}` pretty-printer. */
module CrateLib {
  import opened Seqs
  import opened Tokens
  import Render
  import CliMain

  type FlatTokenList = seq<(seq<string>, string)>

  /** The per-segment naming of both variable renderers. */
  function SegmentName(singular: string -> string, kebab: string -> string): string -> string
  {
    s => kebab(singular(s))
  }

  /** The (name, value) pairs both variable renderers print, in list order. */
  function Variables(list: FlatTokenList, singular: string -> string, kebab: string -> string): (vars: seq<Render.Var>)
    ensures |vars| == |list|
    ensures forall i :: 0 <= i < |list| ==>
      vars[i].0 == Render.VariableName(list[i].0, SegmentName(singular, kebab)) && vars[i].1 == list[i].1
  {
    Render.NamedVars(list, SegmentName(singular, kebab))
  }

  /** `json`: the pretty-printed tree; it never fails. */
  function Json(contents: Token, pretty: Token -> string): (r: Result<string>)
    ensures r.Ok? && r.value == pretty(contents)
  {
    Ok(pretty(contents))
  }

  /** `typescript`: the pretty-printed tree inside the typed-module template;
      it never fails, and the tree is recovered intact from the text. */
  function Typescript(contents: Token, pretty: Token -> string): (r: Result<string>)
    ensures r.Ok?
    ensures |r.value| >= |Render.ModuleHead| && r.value[..|Render.ModuleHead|] == Render.ModuleHead
    ensures Render.ExtractThemeData(r.value, Render.RustModuleTail) == Some(pretty(contents))
  {
    Render.ModuleRoundTrip(pretty(contents), Render.RustModuleTail);
    Ok(Render.ModuleText(pretty(contents), Render.RustModuleTail))
  }

  /** `scss_variables`: one `$name: value;` line per entry, in list order,
      joined by newlines; it never fails, and reading the text back yields
      the entries' names and verbatim values. */
  function ScssVariables(list: FlatTokenList, singular: string -> string, kebab: string -> string): (r: Result<string>)
    ensures r == Ok(Render.ScssDocument(Variables(list, singular, kebab)))
    ensures Render.Printable(Variables(list, singular, kebab)) ==>
      Render.ParseScssDocument(r.value) == Some(Variables(list, singular, kebab))
  {
    var vars := Variables(list, singular, kebab);
    if Render.Printable(vars) then
      Render.ScssRoundTrip(vars);
      Ok(Render.ScssDocument(vars))
    else Ok(Render.ScssDocument(vars))
  }

  /** `css_variables`: one `  --name: value;` line per entry, in list
      order, inside the `:root { ` block; it never fails, and reading the
      text back yields the entries' names and verbatim values. */
  function CssVariables(list: FlatTokenList, singular: string -> string, kebab: string -> string): (r: Result<string>)
    ensures r == Ok(Render.CssDocument(Render.RustRootOpen, Variables(list, singular, kebab)))
    ensures |r.value| >= |Render.RustRootOpen| && r.value[..|Render.RustRootOpen|] == Render.RustRootOpen
    ensures Render.Printable(Variables(list, singular, kebab)) ==>
      Render.ParseCssDocument(Render.RustRootOpen, r.value) == Some(Variables(list, singular, kebab))
  {
    var vars := Variables(list, singular, kebab);
    var text := Render.CssDocument(Render.RustRootOpen, vars);
    assert text[..|Render.RustRootOpen|] == Render.RustRootOpen;
    if Render.Printable(vars) then
      Render.CssRoundTrip(Render.RustRootOpen, vars);
      Ok(text)
    else Ok(text)
  }

  /** The CSS and SCSS renderers print the same variables, in the same
      order: the same names and the same values. */
  lemma CssScssSameVariables(list: FlatTokenList, singular: string -> string, kebab: string -> string)
    requires Render.Printable(Variables(list, singular, kebab))
    ensures Render.ParseCssDocument(Render.RustRootOpen, CssVariables(list, singular, kebab).value)
         == Render.ParseScssDocument(ScssVariables(list, singular, kebab).value)
  {
  }

  /** The SCSS text has exactly one line per entry, and line `i` is entry
      `i`'s declaration. */
  lemma {:induction false} ScssLines(list: FlatTokenList, singular: string -> string, kebab: string -> string)
    requires list != [] && Render.Printable(Variables(list, singular, kebab))
    ensures var lines := Split(ScssVariables(list, singular, kebab).value, '\n');
      |lines| == |list| &&
      forall i :: 0 <= i < |list| ==>
        lines[i] == "$" + Variables(list, singular, kebab)[i].0 + ": " + list[i].1 + ";"
  {
    var vars := Variables(list, singular, kebab);
    Render.LinesHaveNoNewline("$", vars, Render.ScssLine);
    SplitJoin(Render.LinesOf(vars, Render.ScssLine), '\n');
  }

  // ---------------------------------------------------------------------
  // The font-weight scenario of rust/src/tests.rs

  /** The members of the test document, in document order. */
  function FontWeightPairs(): seq<(string, Token)>
  {
    [("regular", Num("400")), ("medium", Num("500")), ("semibold", Num("600")), ("bold", Num("700"))]
  }

  /** Parsing the test document sorts its keys. */
  lemma FontWeightOrder()
    ensures FromPairs(FontWeightPairs())
         == [("bold", Num("700")), ("medium", Num("500")), ("regular", Num("400")), ("semibold", Num("600"))]
  {
    var p := FontWeightPairs();
    assert p[..1][..0] == [] && p[..2][..1] == p[..1] && p[..3][..2] == p[..2] && p[..3] == p[..|p| - 1];
    var m1 := [("regular", Num("400"))];
    assert FromPairs(p[..1]) == m1;
    assert StrLess("medium", "regular");
    var m2 := [("medium", Num("500")), ("regular", Num("400"))];
    assert FromPairs(p[..2]) == Insert(m1, "medium", Num("500")) == m2;
    assert Insert(m2[1..], "semibold", Num("600")) == [("regular", Num("400")), ("semibold", Num("600"))];
    var m3 := [("medium", Num("500")), ("regular", Num("400")), ("semibold", Num("600"))];
    assert FromPairs(p[..3]) == Insert(m2, "semibold", Num("600")) == m3;
    assert StrLess("bold", "medium");
    assert FromPairs(p) == Insert(m3, "bold", Num("700"));
  }

  /** The flattened test document: the fontWeights entries in key order. */
  function FontWeightList(): FlatTokenList
  {
    [(["fontWeights", "bold"], "700"), (["fontWeights", "medium"], "500"),
     (["fontWeights", "regular"], "400"), (["fontWeights", "semibold"], "600")]
  }

  /** The flattener of src/main.rs, applied to the parsed test document with a
      number display that prints these integers as written, yields that list. */
  lemma FontWeightFlattening(numText: string -> string)
    requires numText("400") == "400" && numText("500") == "500" && numText("600") == "600" && numText("700") == "700"
    ensures CliMain.Leaves(Obj([("fontWeights", Obj(FromPairs(FontWeightPairs())))]), [], numText) == FontWeightList()
  {
    FontWeightOrder();
    SortedWeightLeaves(numText);
    SingleMemberLeaves("fontWeights", Obj(FromPairs(FontWeightPairs())), numText);
  }

  /** The sorted weights, flattened under `fontWeights`. */
  lemma SortedWeightLeaves(numText: string -> string)
    requires numText("400") == "400" && numText("500") == "500" && numText("600") == "600" && numText("700") == "700"
    ensures CliMain.Leaves(Obj([("bold", Num("700")), ("medium", Num("500")), ("regular", Num("400")), ("semibold", Num("600"))]),
                           ["fontWeights"], numText) == FontWeightList()
  {
    var inner := [("bold", Num("700")), ("medium", Num("500")), ("regular", Num("400")), ("semibold", Num("600"))];
    var prefix: CliMain.Path := ["fontWeights"];
    var parts := CliMain.MemberLeaves(inner, prefix, numText);
    var l := FontWeightList();
    forall i | 0 <= i < 4 ensures parts[i] == [l[i]] {
      ScalarLeaf(inner[i].1, prefix + [inner[i].0], numText);
      assert numText(inner[i].1.literal) == inner[i].1.literal;
      assert prefix + [inner[i].0] == l[i].0;
    }
    ConcatFour(parts);
    assert [l[0]] + [l[1]] + [l[2]] + [l[3]] == l;
  }

  lemma ScalarLeaf(t: Token, prefix: CliMain.Path, numText: string -> string)
    requires IsScalar(t) && !t.Null?
    ensures CliMain.Leaves(t, prefix, numText) == [(prefix, CliMain.LeafText(t, numText))]
  {
  }

  lemma ConcatFour<T>(parts: seq<seq<T>>)
    requires |parts| == 4
    ensures Concat(parts) == parts[0] + parts[1] + parts[2] + parts[3]
  {
    assert parts[..0] == [];
    ConcatSnoc(parts, 0);
    ConcatSnoc(parts, 1);
    ConcatSnoc(parts, 2);
    ConcatSnoc(parts, 3);
    assert parts[..4] == parts;
  }

  /** An object with one member flattens as its child under the key. */
  lemma SingleMemberLeaves(k: string, c: Token, numText: string -> string)
    ensures CliMain.Leaves(Obj([(k, c)]), [], numText) == CliMain.Leaves(c, [k], numText)
  {
    var parts := CliMain.MemberLeaves([(k, c)], [], numText);
    var empty: CliMain.Path := [];
    assert empty + [k] == [k];
    assert parts == [CliMain.Leaves(c, [k], numText)];
    assert Concat(parts) == Concat(parts[..0]) + parts[0];
    assert parts[..0] == [];
  }

  /** The variables of the test document, for a naming that maps
      `fontWeights` to `font-weight` and keeps the weight names. */
  lemma FontWeightVariables(singular: string -> string, kebab: string -> string)
    requires kebab(singular("fontWeights")) == "font-weight"
    requires kebab(singular("bold")) == "bold" && kebab(singular("medium")) == "medium"
    requires kebab(singular("regular")) == "regular" && kebab(singular("semibold")) == "semibold"
    ensures Variables(FontWeightList(), singular, kebab)
         == [("font-weight-bold", "700"), ("font-weight-medium", "500"),
             ("font-weight-regular", "400"), ("font-weight-semibold", "600")]
  {
    var v := Variables(FontWeightList(), singular, kebab);
    BoldVariable(singular, kebab);
    MediumVariable(singular, kebab);
    RegularVariable(singular, kebab);
    SemiboldVariable(singular, kebab);
    FourVars(v, ("font-weight-bold", "700"), ("font-weight-medium", "500"),
      ("font-weight-regular", "400"), ("font-weight-semibold", "600"));
  }

  lemma BoldVariable(singular: string -> string, kebab: string -> string)
    requires kebab(singular("fontWeights")) == "font-weight" && kebab(singular("bold")) == "bold"
    ensures |Variables(FontWeightList(), singular, kebab)| == 4
    ensures Variables(FontWeightList(), singular, kebab)[0] == ("font-weight-bold", "700")
  {
    assert "font-weight-" + "bold" == "font-weight-bold";
    WeightVariable(FontWeightList(), 0, "bold", "font-weight-bold", "700", singular, kebab);
  }

  lemma MediumVariable(singular: string -> string, kebab: string -> string)
    requires kebab(singular("fontWeights")) == "font-weight" && kebab(singular("medium")) == "medium"
    ensures Variables(FontWeightList(), singular, kebab)[1] == ("font-weight-medium", "500")
  {
    assert "font-weight-" + "medium" == "font-weight-medium";
    WeightVariable(FontWeightList(), 1, "medium", "font-weight-medium", "500", singular, kebab);
  }

  lemma RegularVariable(singular: string -> string, kebab: string -> string)
    requires kebab(singular("fontWeights")) == "font-weight" && kebab(singular("regular")) == "regular"
    ensures Variables(FontWeightList(), singular, kebab)[2] == ("font-weight-regular", "400")
  {
    assert "font-weight-" + "regular" == "font-weight-regular";
    WeightVariable(FontWeightList(), 2, "regular", "font-weight-regular", "400", singular, kebab);
  }

  lemma SemiboldVariable(singular: string -> string, kebab: string -> string)
    requires kebab(singular("fontWeights")) == "font-weight" && kebab(singular("semibold")) == "semibold"
    ensures Variables(FontWeightList(), singular, kebab)[3] == ("font-weight-semibold", "600")
  {
    assert "font-weight-" + "semibold" == "font-weight-semibold";
    WeightVariable(FontWeightList(), 3, "semibold", "font-weight-semibold", "600", singular, kebab);
  }

  lemma FourVars(v: seq<Render.Var>, a: Render.Var, b: Render.Var, c: Render.Var, d: Render.Var)
    requires |v| == 4 && v[0] == a && v[1] == b && v[2] == c && v[3] == d
    ensures v == [a, b, c, d]
  {
  }


  lemma WeightVariable(l: FlatTokenList, i: nat, k: string, name: string, value: string, singular: string -> string, kebab: string -> string)
    requires i < |l| && l[i] == (["fontWeights", k], value)
    requires kebab(singular("fontWeights")) == "font-weight" && kebab(singular(k)) == k
    requires name == "font-weight-" + k
    ensures Variables(l, singular, kebab)[i] == (name, value)
  {
    var seg := SegmentName(singular, kebab);
    PairName("fontWeights", k, seg);
    assert seg("fontWeights") == "font-weight";
    assert seg(k) == k;
    assert "font-weight" + "-" == "font-weight-";
    assert Variables(l, singular, kebab)[i].0 == Render.VariableName(["fontWeights", k], seg);
  }

  lemma PairName(a: string, b: string, segment: string -> string)
    ensures Render.VariableName([a, b], segment) == segment(a) + "-" + segment(b)
  {
    var path := [a, b];
    var names := Render.SegmentNames(path, segment);
    assert names == [segment(a), segment(b)];
    assert names[1..] == [segment(b)];
    assert Join(names, "-") == segment(a) + "-" + Join([segment(b)], "-");
    assert Render.VariableName(path, segment) == Join(names, "-");
  }

  lemma JoinFour(a: string, b: string, c: string, d: string, sep: string)
    ensures Join([a, b, c, d], sep) == a + sep + b + sep + c + sep + d
  {
    assert [a, b, c, d][1..] == [b, c, d];
    assert [b, c, d][1..] == [c, d];
    assert [c, d][1..] == [d];
    assert Join([c, d], sep) == c + sep + d;
    assert Join([b, c, d], sep) == b + sep + (c + sep + d);
    assert Join([a, b, c, d], sep) == a + sep + (b + sep + (c + sep + d));
  }

  /** The expected text of the CSS test (rust/src/tests.rs), under that
      naming, written line by line. */
  lemma FontWeightCss(singular: string -> string, kebab: string -> string)
    requires kebab(singular("fontWeights")) == "font-weight"
    requires kebab(singular("bold")) == "bold" && kebab(singular("medium")) == "medium"
    requires kebab(singular("regular")) == "regular" && kebab(singular("semibold")) == "semibold"
    ensures CssVariables(FontWeightList(), singular, kebab)
         == Ok("\n:root { \n"
               + ("  --font-weight-bold: 700;" + "\n"
                  + "  --font-weight-medium: 500;" + "\n"
                  + "  --font-weight-regular: 400;" + "\n"
                  + "  --font-weight-semibold: 600;")
               + "\n}\n")
  {
    FontWeightVariables(singular, kebab);
    var vars := Variables(FontWeightList(), singular, kebab);
    CssBoldLine();
    CssMediumLine();
    CssRegularLine();
    CssSemiboldLine();
    LinesOfFour(vars, Render.CssLine);
    var lines := Render.LinesOf(vars, Render.CssLine);
    JoinFour(lines[0], lines[1], lines[2], lines[3], "\n");
  }

  lemma LinesOfFour(vars: seq<Render.Var>, line: Render.Var -> string)
    requires |vars| == 4
    ensures Render.LinesOf(vars, line) == [line(vars[0]), line(vars[1]), line(vars[2]), line(vars[3])]
  {
  }

  lemma CssBoldLine()
    ensures Render.CssLine(("font-weight-bold", "700")) == "  --font-weight-bold: 700;"
  {
  }

  lemma CssMediumLine()
    ensures Render.CssLine(("font-weight-medium", "500")) == "  --font-weight-medium: 500;"
  {
  }

  lemma CssRegularLine()
    ensures Render.CssLine(("font-weight-regular", "400")) == "  --font-weight-regular: 400;"
  {
  }

  lemma CssSemiboldLine()
    ensures Render.CssLine(("font-weight-semibold", "600")) == "  --font-weight-semibold: 600;"
  {
  }

  /** The expected text of the SCSS test (rust/src/tests.rs), under that
      naming, written line by line. */
  lemma FontWeightScss(singular: string -> string, kebab: string -> string)
    requires kebab(singular("fontWeights")) == "font-weight"
    requires kebab(singular("bold")) == "bold" && kebab(singular("medium")) == "medium"
    requires kebab(singular("regular")) == "regular" && kebab(singular("semibold")) == "semibold"
    ensures ScssVariables(FontWeightList(), singular, kebab)
         == Ok("$font-weight-bold: 700;" + "\n"
               + "$font-weight-medium: 500;" + "\n"
               + "$font-weight-regular: 400;" + "\n"
               + "$font-weight-semibold: 600;")
  {
    FontWeightVariables(singular, kebab);
    var vars := Variables(FontWeightList(), singular, kebab);
    ScssBoldLine();
    ScssMediumLine();
    ScssRegularLine();
    ScssSemiboldLine();
    LinesOfFour(vars, Render.ScssLine);
    JoinFour("$font-weight-bold: 700;", "$font-weight-medium: 500;",
      "$font-weight-regular: 400;", "$font-weight-semibold: 600;", "\n");
  }

  lemma ScssBoldLine()
    ensures Render.ScssLine(("font-weight-bold", "700")) == "$font-weight-bold: 700;"
  {
  }

  lemma ScssMediumLine()
    ensures Render.ScssLine(("font-weight-medium", "500")) == "$font-weight-medium: 500;"
  {
  }

  lemma ScssRegularLine()
    ensures Render.ScssLine(("font-weight-regular", "400")) == "$font-weight-regular: 400;"
  {
  }

  lemma ScssSemiboldLine()
    ensures Render.ScssLine(("font-weight-semibold", "600")) == "$font-weight-semibold: 600;"
  {
  }
}
