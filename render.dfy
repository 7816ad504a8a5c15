/** String assembly shared by every renderer: variable names built from a
    path, the CSS custom-property and SCSS variable lines, the `:root` block,
    and the typed-module template around a pretty-printed tree.

    Each output format has a reader beside it (`ParseScssDocument`,
    `ParseCssDocument`, `ExtractThemeData`) that recovers what was rendered;
    the round-trip lemmas say that nothing is lost, reordered or altered. */
module Render {
  import opened Seqs

  /** One rendered variable: its name and its value text. */
  type Var = (string, string)

  /** `segment(path[0]) + "-" + segment(path[1]) + ...`: the per-segment
      naming function is applied to every segment and the results joined by
      a dash. */
  function VariableName<S>(path: seq<S>, segment: S -> string): string
  {
    Join(SegmentNames(path, segment), "-")
  }

  /** The name of every path segment, in path order. */
  function SegmentNames<S>(path: seq<S>, segment: S -> string): (names: seq<string>)
    ensures |names| == |path|
    ensures forall i :: 0 <= i < |path| ==> names[i] == segment(path[i])
  {
    seq(|path|, i requires 0 <= i < |path| => segment(path[i]))
  }

  /** The (name, value) pair of every flattened entry, in list order. */
  function NamedVars<S>(entries: seq<(seq<S>, string)>, segment: S -> string): (vars: seq<Var>)
    ensures |vars| == |entries|
    ensures forall i :: 0 <= i < |entries| ==> vars[i] == (VariableName(entries[i].0, segment), entries[i].1)
  {
    seq(|entries|, i requires 0 <= i < |entries| => (VariableName(entries[i].0, segment), entries[i].1))
  }

  /** `  --<name>: <value>;` */
  function CssLine(v: Var): string { "  --" + v.0 + ": " + v.1 + ";" }

  /** `$<name>: <value>;` */
  function ScssLine(v: Var): string { "$" + v.0 + ": " + v.1 + ";" }

  function LinesOf(vars: seq<Var>, line: Var -> string): seq<string>
  {
    seq(|vars|, i requires 0 <= i < |vars| => line(vars[i]))
  }

  /** The SCSS document: one line per variable, joined by newlines, with no
      wrapper and no trailing newline. */
  function ScssDocument(vars: seq<Var>): string
  {
    Join(LinesOf(vars, ScssLine), "\n")
  }

  /** The opening of the Rust `:root` block: note the space after the brace. */
  const RustRootOpen: string := "\n:root { \n"
  /** The opening of the JavaScript `:root` block, without that space. */
  const JsRootOpen: string := "\n:root {\n"
  const RootClose: string := "\n}\n"

  /** The CSS document: the variable lines, joined by newlines, inside a
      `:root` block that starts with `open`. */
  function CssDocument(open: string, vars: seq<Var>): string
  {
    open + Join(LinesOf(vars, CssLine), "\n") + RootClose
  }

  /** The typed-module templates around a pretty-printed tree `J`. */
  const ModuleHead: string := "\nexport const themeData = "
  /** Rust: a blank line between the two declarations, and two trailing
      spaces. */
  const RustModuleTail: string := " as const;\n\nexport type ThemeType = typeof themeData;\n  "
  const JsModuleTail: string := " as const;\nexport type ThemeType = typeof themeData;\n"

  function ModuleText(json: string, tail: string): string
  {
    ModuleHead + json + tail
  }

  // ---------------------------------------------------------------------
  // Reading the outputs back

  /** Names carry no colon and no newline, values no newline: what it takes
      for a line-oriented reader to recover them. */
  predicate Printable(vars: seq<Var>)
  {
    forall i :: 0 <= i < |vars| ==> ':' !in vars[i].0 && '\n' !in vars[i].0 && '\n' !in vars[i].1
  }

  function FirstIndex(s: string, c: char): (r: Option<nat>)
    ensures r.Some? ==> r.value < |s| && s[r.value] == c && c !in s[..r.value]
    ensures r.None? ==> c !in s
  {
    if s == [] then None
    else if s[0] == c then Some(0)
    else match FirstIndex(s[1..], c)
      case None => None
      case Some(k) => assert s[..k + 1] == [s[0]] + s[1..][..k]; Some(k + 1)
  }

  /** Reads `<lead><name>: <value>;`, the name ending at the first colon. */
  function ParseLine(lead: string, line: string): Option<Var>
  {
    if |line| >= |lead| + 1 && line[..|lead|] == lead && line[|line| - 1] == ';' then
      var body := line[|lead|..|line| - 1];
      match FirstIndex(body, ':')
      case None => None
      case Some(k) => if k + 1 < |body| && body[k + 1] == ' ' then Some((body[..k], body[k + 2..])) else None
    else None
  }

  function ParseEach(lead: string, lines: seq<string>): Option<seq<Var>>
  {
    if lines == [] then Some([])
    else match (ParseLine(lead, lines[0]), ParseEach(lead, lines[1..]))
      case (Some(v), Some(vs)) => Some([v] + vs)
      case _ => None
  }

  function ParseLines(lead: string, text: string): Option<seq<Var>>
  {
    if text == "" then Some([]) else ParseEach(lead, Split(text, '\n'))
  }

  function ParseScssDocument(text: string): Option<seq<Var>>
  {
    ParseLines("$", text)
  }

  function ParseCssDocument(open: string, text: string): Option<seq<Var>>
  {
    if |text| >= |open| + |RootClose| && text[..|open|] == open && text[|text| - |RootClose|..] == RootClose
    then ParseLines("  --", text[|open|..|text| - |RootClose|])
    else None
  }

  /** The pretty-printed tree inside a typed module with the given tail. */
  function ExtractThemeData(text: string, tail: string): Option<string>
  {
    if |text| >= |ModuleHead| + |tail| && text[..|ModuleHead|] == ModuleHead && text[|text| - |tail|..] == tail
    then Some(text[|ModuleHead|..|text| - |tail|])
    else None
  }

  // ---------------------------------------------------------------------
  // Round trips

  lemma ParseLineOf(lead: string, v: Var)
    requires ':' !in lead && ':' !in v.0
    ensures ParseLine(lead, lead + v.0 + ": " + v.1 + ";") == Some(v)
  {
    var line := lead + v.0 + ": " + v.1 + ";";
    var body := line[|lead|..|line| - 1];
    assert line[..|lead|] == lead;
    assert body == v.0 + ": " + v.1;
    assert body[..|v.0|] == v.0;
    assert body == v.0 + [':'] + (" " + v.1);
    FirstIndexAfter(v.0, " " + v.1, ':');
    assert body[|v.0| + 2..] == v.1;
  }

  lemma {:induction false} FirstIndexAfter(p: string, t: string, c: char)
    requires c !in p
    ensures FirstIndex(p + [c] + t, c) == Some(|p|)
  {
    if p != [] {
      assert (p + [c] + t)[1..] == p[1..] + [c] + t;
      FirstIndexAfter(p[1..], t, c);
    }
  }

  lemma {:induction false} ParseEachOf(lead: string, vars: seq<Var>, line: Var -> string)
    requires ':' !in lead
    requires forall i :: 0 <= i < |vars| ==> ':' !in vars[i].0
    requires forall v :: line(v) == lead + v.0 + ": " + v.1 + ";"
    ensures ParseEach(lead, LinesOf(vars, line)) == Some(vars)
  {
    if vars != [] {
      ParseLineOf(lead, vars[0]);
      ParseEachOf(lead, vars[1..], line);
      assert LinesOf(vars, line)[1..] == LinesOf(vars[1..], line);
      assert [vars[0]] + vars[1..] == vars;
    }
  }

  lemma LinesHaveNoNewline(lead: string, vars: seq<Var>, line: Var -> string)
    requires '\n' !in lead && Printable(vars)
    requires forall v :: line(v) == lead + v.0 + ": " + v.1 + ";"
    ensures forall i :: 0 <= i < |vars| ==> '\n' !in LinesOf(vars, line)[i]
  {
  }

  lemma {:induction false} ParseLinesOf(lead: string, vars: seq<Var>, line: Var -> string)
    requires ':' !in lead && '\n' !in lead && Printable(vars)
    requires forall v :: line(v) == lead + v.0 + ": " + v.1 + ";"
    ensures ParseLines(lead, Join(LinesOf(vars, line), "\n")) == Some(vars)
  {
    var lines := LinesOf(vars, line);
    if vars != [] {
      LinesHaveNoNewline(lead, vars, line);
      SplitJoin(lines, '\n');
      ParseEachOf(lead, vars, line);
      JoinStartsWith(lines, "\n");
      assert |lines[0]| >= 1;
    }
  }

  lemma {:induction false} JoinStartsWith(parts: seq<string>, sep: string)
    requires parts != []
    ensures |Join(parts, sep)| >= |parts[0]| && Join(parts, sep)[..|parts[0]|] == parts[0]
  {
  }

  /** Reading an SCSS document back yields exactly the variables rendered
      into it, in order: one line per variable, name and value verbatim. */
  lemma ScssRoundTrip(vars: seq<Var>)
    requires Printable(vars)
    ensures ParseScssDocument(ScssDocument(vars)) == Some(vars)
  {
    ParseLinesOf("$", vars, ScssLine);
  }

  /** Reading a CSS document back, for a given opening of the `:root` block,
      yields exactly the variables rendered into it, in order. */
  lemma CssRoundTrip(open: string, vars: seq<Var>)
    requires Printable(vars)
    ensures ParseCssDocument(open, CssDocument(open, vars)) == Some(vars)
  {
    var body := Join(LinesOf(vars, CssLine), "\n");
    var text := open + body + RootClose;
    assert text[..|open|] == open;
    assert text[|text| - |RootClose|..] == RootClose;
    assert text[|open|..|text| - |RootClose|] == body;
    ParseLinesOf("  --", vars, CssLine);
  }

  /** The pretty-printed tree is recovered from the typed module. */
  lemma ModuleRoundTrip(json: string, tail: string)
    ensures ExtractThemeData(ModuleText(json, tail), tail) == Some(json)
  {
    var text := ModuleText(json, tail);
    assert text[..|ModuleHead|] == ModuleHead;
    assert text[|text| - |tail|..] == tail;
    assert text[|ModuleHead|..|text| - |tail|] == json;
  }
}
