# Design-token pipeline, modelled in Dafny

The repository turns a design-token tree, read from a JSON or YAML document,
into four artifacts:

- pretty-printed JSON;
- a TypeScript module binding the tree to the constant `themeData`;
- CSS custom properties;
- SCSS variables.

The same pipeline exists three times:

- the original Rust command-line tool (`src/main.rs`);
- a newer Rust crate with a format-selecting command (`rust/src/lib.rs`, `rust/src/main.rs`);
- a TypeScript tool (`javascript/src/index.ts`, helpers in `javascript/src/lib/helpers.ts`), with its compiled JavaScript twin (`javascript/dist/`).

The JavaScript twin is the TypeScript code with its types erased, so each
operation is modelled once and tied to both files.

Modules:

- `Seqs` (`seqs.dfy`): `Option` and `Result`, concatenation, sums, `Join` and `Split`, with their lemmas.
- `Decimal` (`decimal.dfy`): the decimal text of array indices and its reader.
- `Tokens` (`tokens.dfy`): the token tree `Null | Bool | Num(text) | Str | Arr | Obj`. Numbers keep their literal text.
  - A Rust object is a member sequence with strictly sorted keys. This is serde_json's default sorted map, and it is why the Rust test expects `bold, medium, regular, semibold` for a document written `regular, medium, semibold, bold`.
  - A JavaScript object is a member sequence in `Object.keys` order.
- `Render` (`render.dfy`): the shared string assembly. It covers variable names, the CSS and SCSS line formats, the `:root` wrappers and the module templates. It also has readers that recover the printed variables, which the renderers' round-trip contracts use.
- `CliMain` (`cli_main.dfy`): the old Rust tool.
  - The flattener `convert_to_flat_list` is an imperative method with loops over the children. It is proved equal to the recursive reference function `Accumulated`.
  - `Leaves` is the reference flattening: one entry per non-Null scalar leaf, in depth-first order.
  - When the accumulator is empty, as at both call sites, the two agree. `Leaves` is then proved sound, complete, of the right length, and in key order.
- `CrateLib` (`crate_lib.dfy`): the crate's four renderers, plus the test scenario of `rust/src/tests.rs`. That scenario runs from the document `regular, medium, semibold, bold` to the exact CSS and SCSS texts.
- `CrateMain` (`crate_main.dfy`): format selection. An empty request means the four defaults, unknown names are skipped, and each output's extension is its format name.
- `JsHelpers` (`js_helpers.dfy`): the six case helpers, exact over ASCII, with a reference definition of `toDashCase`.
- `JsIndex` (`js_index.dfy`): the JavaScript tool.
  - `convertToFlatList` drops falsy values and lists array elements whole, with sound and complete characterisations.
  - It also covers `transformKeyName`, the four renderers, `isTokenObject`, the extension check of `run`, and `transformFile`'s parse and transform switch.

Foreign functions are parameters:

- the `{:#}` and `JSON.stringify` pretty-printers;
- the number display (`num.to_string()`, and `${value}` on a number);
- convert_case's `Case::Kebab`, inflector's `to_singular` and `to_kebab_case`, and `pluralize.singular`;
- `JSON.parse` and `js-yaml`'s `safeLoad`, gathered with the JavaScript ones above in the `JsIndex.Library` record.

The Rust tools start from the parsed tree (`Tokens.Token`). The sorted map `serde_json` builds for an object is modelled concretely by `Tokens.Insert` and `Tokens.FromPairs`.

The model follows the code in these places, where it behaves differently from what one might expect:

- The Rust tools visit object members in sorted key order, not document order. The tests expect sorted output.
- `src/main.rs` does not singularise segments. It only kebab-cases them.
- The JavaScript tool drops every falsy value (`0`, `""`, `false`, `null`), not only Null. It also does not descend into arrays: an element becomes one entry, printed with JavaScript's template-literal conversion.
- The JavaScript `:root {` has no space after the brace.
- The JavaScript module template has no blank line between its two declarations.

## Model

The rows cite the TypeScript sources. The compiled twins hold the same code
at these lines, and every row about a function covers its twin as well:

- `javascript/dist/index.js`
  - `config` is at 31-33, `run` at 34-48 (the extension check at 40-46), and `transformFile` at 49-84.
  - The renderers: JSON 88-91, TS 95-102, CSS 106-126 (with `transformKeyName` at 107-112), SCSS 130-145.
  - `convertToFlatList` is at 146-168 and `isTokenObject` at 169-171.
- `javascript/dist/lib/helpers.js`
  - `toLowerCase` is at 4 and `toDashCase` at 5-8.
  - `dashToPascalCase` is at 9-12 and `dashToCapitalWords` at 13-16.
  - `toTitleCase` is at 17 and `captializeFirstLetter` at 18.

| member | source | states |
|---|---|---|
| CliMain.ConvertToFlatList | src/main.rs:148-187 | the loop-built result is the accumulator, then each child's flattening (each with its own copy of the accumulator, its prefix extended by the 1-based index or the key), Null adding nothing, a string its text, a number its display, a boolean `true`/`false` |
| CliMain.AccumulatedEmpty | src/main.rs:104 | with the empty accumulator of the call sites, the flattener yields the reference list of leaf entries in traversal order |
| CliMain.AccumulatedLength | src/main.rs:153-184 | a non-empty accumulator is repeated once per node of the tree: the length is the accumulator's length times the node count, plus the leaf count |
| CliMain.LeavesCount | src/main.rs:155-181 | the flattening has exactly one entry per non-Null scalar leaf |
| CliMain.LeavesExtendPrefix | src/main.rs:158-175 | every entry's path extends the prefix it was flattened under |
| CliMain.LeavesSound | src/main.rs:155-181 | every entry's path, below the prefix, leads through keys and 1-based index texts to a non-Null scalar leaf, and the entry carries that leaf's text |
| CliMain.LeavesComplete | src/main.rs:155-181 | every non-Null scalar leaf has its entry under its path |
| CliMain.ArrayFirstSegment | src/main.rs:158-165 | array children are numbered from 1: a scalar first element gives the first entry, under segment `"1"` |
| CliMain.NullMemberContributesNothing | src/main.rs:156 | removing a Null member leaves an object's flattening unchanged |
| CliMain.LeavesInKeyOrder | src/main.rs:168-175 | over an object with sorted keys, the segment right after the prefix never decreases along the flattening |
| CliMain.TransformToJson | src/main.rs:86-90 | always `Ok`, extension `json`, text the pretty-printed tree |
| CliMain.TransformToTypescript | src/main.rs:92-101 | always `Ok`, extension `ts`, and the pretty-printed tree is recovered intact from the module text |
| CliMain.TransformToCssVariables | src/main.rs:103-128 | always `Ok`, extension `css`; the text is the `:root { ` block of one line per leaf entry, and reading it back yields each entry's kebab-cased name and value in order |
| CliMain.TransformToScssVariables | src/main.rs:130-146 | always `Ok`, extension `scss`; the text is one `$name: value;` line per leaf entry, and reading it back yields every entry's name and value in order |
| Decimal.NatToString | src/main.rs:163 | an index text is non-empty, all digits, with no leading zero |
| Decimal.ParseNatToString | src/main.rs:163 | an index text reads back as the index |
| Decimal.NatToStringInjective | src/main.rs:163 | different indices get different segments |
| Tokens.FromPairsSorted | src/main.rs:168-169 | a parsed object has strictly sorted keys, exactly the document's keys |
| Tokens.InsertSorted | src/main.rs:168-169 | adding a member keeps the keys sorted, and the member is found under its key |
| Tokens.GetSorted | src/main.rs:173 | in a sorted object each member is found under its own key |
| Render.ScssRoundTrip | rust/src/lib.rs:21-40 | reading an SCSS document back gives exactly the variables printed, in order |
| Render.CssRoundTrip | rust/src/lib.rs:42-70 | reading a CSS document back gives exactly the variables printed, in order |
| Render.ModuleRoundTrip | rust/src/lib.rs:10-19 | the pretty-printed tree is recovered from the module template |
| CrateLib.Variables | rust/src/lib.rs:22-34 | one (name, value) per entry, in list order: the name from the singularised, kebab-cased segments, the value verbatim |
| CrateLib.Json | rust/src/lib.rs:5-8 | always `Ok`, the pretty-printed tree |
| CrateLib.Typescript | rust/src/lib.rs:10-19 | always `Ok`; the text starts with the `export const themeData = ` head and yields the pretty-printed tree back |
| CrateLib.ScssVariables | rust/src/lib.rs:21-40 | always `Ok`, with exactly the `$name: value;` lines of the named entries in list order, newline-joined; reading the text back yields every entry's name and verbatim value in list order |
| CrateLib.CssVariables | rust/src/lib.rs:42-70 | always `Ok`, with exactly the `  --name: value;` lines of the named entries in list order inside the `"\n:root { \n"` … `"\n}\n"` block; reading it back yields every entry's name and verbatim value in list order |
| CrateLib.CssScssSameVariables | rust/src/lib.rs:21-70 | the CSS and SCSS renderers print the same names and values, in the same order |
| CrateLib.ScssLines | rust/src/lib.rs:21-40 | the SCSS text has exactly one line per entry, line `i` being `$name: value;` for entry `i` |
| CrateLib.FontWeightOrder | rust/src/tests.rs:20-27 | the document `regular, medium, semibold, bold` is read as the object `bold, medium, regular, semibold` |
| CrateLib.FontWeightFlattening | rust/src/tests.rs:18-38 | that object flattens to the four `fontWeights` paths with texts `700, 500, 400, 600` |
| CrateLib.FontWeightVariables | rust/src/tests.rs:29-36 | with the naming of `fontWeights` as `font-weight`, the variables are `font-weight-bold: 700` … `font-weight-semibold: 600` |
| CrateLib.FontWeightCss | rust/src/tests.rs:18-38 | the CSS text is exactly the expected `:root { ` block of the test |
| CrateLib.FontWeightScss | rust/src/tests.rs:40-57 | the SCSS text is exactly the expected four lines of the test |
| CrateMain.FromStr | rust/src/main.rs:61-67 | a name parses exactly when it is one of the variant names, and parses to the variant of that name |
| CrateMain.FromStrName | rust/src/main.rs:73 | the extension written for a format parses back to that format |
| CrateMain.VariantsAreNames | rust/src/tests.rs:8-15 | the variant list is `css, scss, json, ts`, each of which parses |
| CrateMain.FileTypes | rust/src/main.rs:28-35 | an empty request gives exactly the default list `css, scss, json, ts`; a non-empty one is used verbatim |
| CrateMain.Supported | rust/src/main.rs:59-67 | the supported names are exactly the requested names that name a format |
| CrateMain.SelectTransforms | rust/src/main.rs:59-67 | never more formats than names |
| CrateMain.SelectedNames | rust/src/main.rs:59-67 | the selected formats are, in request order, the requested names that parse |
| CrateMain.SelectedCount | rust/src/main.rs:59-80 | the number of outputs is the number of requested names that parse |
| CrateMain.UnknownSkipped | rust/src/main.rs:61-66 | an unknown name is skipped without affecting the others |
| CrateMain.DefaultSelection | rust/src/main.rs:28-33 | an empty request produces `css, scss, json, ts`, in that order |
| CrateMain.Outputs | rust/src/main.rs:68-80 | one output per supported name, in order, whose extension is that name |
| JsHelpers.ToLowerCase | javascript/src/lib/helpers.ts:1 | every character lowered, the length kept, no capital left |
| JsHelpers.ToLowerCaseIdempotent | javascript/src/lib/helpers.ts:1 | lowering twice is lowering once |
| JsHelpers.TrimStartRemovesWhitespace | javascript/src/lib/helpers.ts:7 | `trim` takes off leading whitespace and nothing else |
| JsHelpers.TrimEndRemovesWhitespace | javascript/src/lib/helpers.ts:7 | `trim` takes off trailing whitespace and nothing else |
| JsHelpers.ToDashCase | javascript/src/lib/helpers.ts:3-9 | the result has no space and no capital letter |
| JsHelpers.DashCaseReference | javascript/src/lib/helpers.ts:3-9 | on whitespace-free input, it equals the reference: every character lowered, with a dash before each non-initial capital or digit |
| JsHelpers.DashCaseIdentity | javascript/src/lib/helpers.ts:3-9 | strings of `a-z` and `-` are left unchanged |
| JsHelpers.DashCaseIdempotent | javascript/src/lib/helpers.ts:3-9 | dash-casing a whitespace-free, digit-free name twice is dash-casing it once |
| JsHelpers.Capitalize | javascript/src/lib/helpers.ts:14 | the first character uppercased, the rest kept, the length kept |
| JsHelpers.DashToPascalCase | javascript/src/lib/helpers.ts:11-15 | the Pascal-cased text has no dash |
| JsHelpers.DashToCapitalWords | javascript/src/lib/helpers.ts:17-21 | the capital-words text has no dash and is as long as the input, each dash becoming a space |
| JsHelpers.PascalLowered | javascript/src/lib/helpers.ts:11-15 | lowered, the Pascal-cased text is the lowered input with its dashes removed |
| JsHelpers.CapitalizedSegmentsChars | javascript/src/lib/helpers.ts:11-21 | the capitalised segments carry no dash, and no space when the input has none |
| JsHelpers.CapitalWordsSegments | javascript/src/lib/helpers.ts:17-21 | with no space in the input, the capital words are the Pascal segments, one more than dashes, whose concatenation is the Pascal-cased text |
| JsHelpers.ToTitleCase | javascript/src/lib/helpers.ts:23 | only the first character changes, to its capital; the length is kept |
| JsHelpers.CaptializeFirstLetter | javascript/src/lib/helpers.ts:25 | only the first character changes, to its capital; the length is kept |
| JsHelpers.FirstLetterHelpers | javascript/src/lib/helpers.ts:23-25 | the two first-letter helpers agree, map `""` to `""`, are idempotent and change nothing but case |
| JsIndex.FalsyContributesNothing | javascript/src/index.ts:166-168 | a falsy value gives back the accumulator unchanged |
| JsIndex.ArrayEntries | javascript/src/index.ts:172-175 | an array is not descended into: element `i` is one entry, as it is, under the prefix extended by the number `i + 1` |
| JsIndex.MemberLists | javascript/src/index.ts:176-182 | an object's result is the accumulator followed by its members' flattenings in key order, each under the prefix extended by the raw key |
| JsIndex.ScalarEntry | javascript/src/index.ts:183-187 | a truthy scalar gives exactly one entry, the value under the prefix, after the accumulator |
| JsIndex.ConvertToFlatList | javascript/src/index.ts:165-188 | the result always starts with the accumulator, and is exactly the accumulator for a falsy value |
| JsIndex.FalsyMemberDropped | javascript/src/index.ts:176-182 | removing a falsy member leaves an object's flattening unchanged |
| JsIndex.EntryCountIs | javascript/src/index.ts:165-188 | the number of entries is none per falsy value, one per array element, one per truthy scalar |
| JsIndex.EntriesSound | javascript/src/index.ts:165-188 | every entry's path, below the prefix, leads through keys to a truthy scalar or through keys and one final 1-based index to an array element, and the entry carries that node |
| JsIndex.EntriesComplete | javascript/src/index.ts:165-188 | every such node has its entry under its path |
| JsIndex.TransformKeyName | javascript/src/index.ts:119-124 | a numeric segment becomes its decimal text (read back as the number), a key becomes `toDashCase(singular(key))`, which has no space and no capital |
| JsIndex.Variables | javascript/src/index.ts:126-131 | one (name, value) per entry of the flattening, in order: the segment names joined by `-`, the value as a template literal prints it |
| JsIndex.TransformToJson | javascript/src/index.ts:96-100 | extension `json`, text `JSON.stringify(tokenJSON, null, 2)` |
| JsIndex.TransformToTypescript | javascript/src/index.ts:105-113 | extension `ts`; the text starts with the module head and yields the stringified tree back |
| JsIndex.TransformToCssVariables | javascript/src/index.ts:118-141 | extension `css`, with exactly the `  --name: value;` lines of the named entries in order inside the `"\n:root {\n"` … `"\n}\n"` block; reading it back yields every entry's name and value in order |
| JsIndex.TransformToScssVariables | javascript/src/index.ts:146-163 | extension `scss`, with exactly the `$name: value;` lines of the named entries in order, newline-joined; reading the text back yields every entry's name and value in order |
| JsIndex.TransformWith | javascript/src/index.ts:72-83 | each transform's output carries that transform's name as its extension |
| JsIndex.IsTokenObject | javascript/src/index.ts:190-192 | true exactly for a defined array or object, which is never falsy |
| JsIndex.SourceType | javascript/src/index.ts:38-45 | accepted exactly for `json`, `yml`, `yaml`, JSON only for `json`; otherwise the run's unsupported-extension message |
| JsIndex.Parse | javascript/src/index.ts:58-63 | YAML is `safeLoad`'s outcome as is; JSON succeeds exactly when `JSON.parse` does, always with a defined value, and otherwise carries its error |
| JsIndex.Run | javascript/src/index.ts:38-47 | a run succeeds only for `json`, `yml` or `yaml`, with one output per configured transform named by its extension; a supported extension hands over to `transformFile` |
| JsIndex.TransformFile | javascript/src/index.ts:50-91 | succeeds exactly when the parse succeeds with a token object; a parsed non-object gives the structure error; on success the four configured transforms, in order |
| JsIndex.RunRejectsExtension | javascript/src/index.ts:40-42 | any other extension fails the run with `'<ext>' is not a supported extension type.  Please us a yaml or json file.` |
| JsIndex.YmlIsYaml | javascript/src/index.ts:43-45 | `yml` and `yaml` runs are the same |
| JsIndex.RunRejectsScalar | javascript/src/index.ts:65-69 | a scalar, `null` or `undefined` document fails the run with the structure error |
| JsIndex.RunOutputs | javascript/src/index.ts:72-90 | a successful run gives four outputs, `json, css, scss, ts` in that order, each its renderer's output |

## Left out

- File I/O and the command line are not modelled: argument parsing, reading the document, creating the output directory, and creating and writing files (`src/main.rs` 21-84, `rust/src/main.rs` 24-57 and 68-79, `javascript/src/index.ts` 29-91). The file-existence check of `run` and the directory creation before the extension check are left out with them.
- The output file name is not modelled. It is built by `path.join`, `path.basename` and `with_extension`. Only the extension each output carries is modelled.
- Concurrency is modelled sequentially. Rust's `par_iter` and JavaScript's `Promise.all` do not change which outputs are produced.
- The extension match of the Rust tools (`src/main.rs` 31-38, `rust/src/main.rs` 43-50) is not modelled. It panics on an unsupported extension and is I/O glue.
- The message `rust/src/main.rs` prints for a skipped format name (line 64) is not modelled. `CrateMain.SelectTransforms` drops that name without output.
- The foreign functions are parameters and their behaviour is not modelled: the pretty-printers, the JavaScript JSON and YAML parsers, the number display, and the singularising and kebab-casing libraries.
- Parse-of-print round trips of the JSON output are a property of those libraries. The model cannot state them.
- The crate's `Transform` enum, its `process` method and the crate's own flattener are not part of this model. `FromStr` is an exact match on the four variant names. The test scenario flattens with `src/main.rs`'s flattener, as the only flattener in the Rust sources.
- Case mapping is modelled for ASCII only. Non-ASCII upper- and lowercasing, which can change a string's length, is not modelled. `trim`'s whitespace is the full ECMAScript set of white-space and line-terminator characters (`IsJsWhitespace`).
- `JsIndex.Falsy` covers JSON and YAML number literals whose digits are all zero. It does not cover `NaN`, YAML's hexadecimal and octal zero forms, or literals too small for a double (such as `1e-400`), which `JSON.parse` and the YAML reader round to zero. These are treated as truthy, where the code drops them as falsy. An `undefined` value can only arise at the root, where it is the `None` of `safeLoad`.
- Duplicate keys and `Object.keys`'s integer-key ordering are not modelled. A JavaScript object is taken to have distinct keys (`JsWf`), listed in the member order given.
- CliMain.TransformToCssVariables: the read-back is stated only for names without a colon or newline and values without a newline (`Render.Printable`). Otherwise no line reader can recover them. The same holds for CliMain.TransformToScssVariables, CrateLib.CssVariables, CrateLib.ScssVariables, JsIndex.TransformToCssVariables and JsIndex.TransformToScssVariables.
- CrateLib.FontWeightCss: the expected texts of the test scenario assume the foreign naming maps `fontWeights` to `font-weight` and leaves the weight names unchanged, and that the number display prints `400`, `500`, `600` and `700` as written. The same holds for CrateLib.FontWeightScss and CrateLib.FontWeightVariables.
- JsHelpers.DashCaseIdempotent: it is stated for digit-free names only. A digit gets a dash before it on every application, so the general case does not hold.
