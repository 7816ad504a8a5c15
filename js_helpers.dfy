/** The string helpers of the JavaScript tool (javascript/src/lib/helpers.ts
    and its compiled twin javascript/dist/lib/helpers.js): `toLowerCase`,
    `toDashCase`, `dashToPascalCase`, `dashToCapitalWords`, `toTitleCase`
    and `captializeFirstLetter`.

    Case mapping is ASCII only: `A`-`Z` and `a`-`z` are mapped, every other
    character is left as it is. `trim` removes the whitespace and line
    terminator characters of ECMAScript. */
module JsHelpers {
  import opened Seqs

  predicate IsUpper(c: char) { 'A' <= c <= 'Z' }
  predicate IsLower(c: char) { 'a' <= c <= 'z' }
  predicate IsAsciiDigit(c: char) { '0' <= c <= '9' }

  function Lower(c: char): (r: char)
    ensures !IsUpper(r)
    ensures IsUpper(c) ==> IsLower(r)
    ensures !IsUpper(c) ==> r == c
  {
    if IsUpper(c) then (c as int + 32) as char else c
  }

  function Upper(c: char): (r: char)
    ensures !IsLower(r)
    ensures IsLower(c) ==> IsUpper(r) && Lower(r) == c
    ensures !IsLower(c) ==> r == c
  {
    if IsLower(c) then (c as int - 32) as char else c
  }

  /** `toLowerCase`: every character lowered, the length kept. */
  function ToLowerCase(s: string): (r: string)
    ensures |r| == |s|
    ensures forall i :: 0 <= i < |s| ==> r[i] == Lower(s[i])
    ensures forall c :: c in r ==> !IsUpper(c)
  {
    seq(|s|, i requires 0 <= i < |s| => Lower(s[i]))
  }

  lemma ToLowerCaseAppend(a: string, b: string)
    ensures ToLowerCase(a + b) == ToLowerCase(a) + ToLowerCase(b)
  {
  }

  /** Lowering twice is lowering once. */
  lemma ToLowerCaseIdempotent(s: string)
    ensures ToLowerCase(ToLowerCase(s)) == ToLowerCase(s)
  {
  }

  /** The characters ECMAScript's `trim` removes. */
  predicate IsJsWhitespace(c: char)
  {
    c == '\t' || c == '\n' || c == '\U{000B}' || c == '\U{000C}' || c == '\r' || c == ' ' ||
    c == '\U{00A0}' || c == '\U{1680}' || ('\U{2000}' <= c <= '\U{200A}') ||
    c == '\U{2028}' || c == '\U{2029}' || c == '\U{202F}' || c == '\U{205F}' ||
    c == '\U{3000}' || c == '\U{FEFF}'
  }

  /** The characters `/([A-Z0-9])/g` matches. */
  predicate Marks(c: char) { IsUpper(c) || IsAsciiDigit(c) }

  /** `replace(/([A-Z0-9])/g, g => ' ' + g[0])`: a space before every
      uppercase letter and digit. */
  function InsertSpaces(s: string): string
  {
    if s == [] then [] else (if Marks(s[0]) then [' ', s[0]] else [s[0]]) + InsertSpaces(s[1..])
  }

  function TrimStart(s: string): (r: string)
    ensures r != [] ==> !IsJsWhitespace(r[0])
    decreases |s|
  {
    if s != [] && IsJsWhitespace(s[0]) then TrimStart(s[1..]) else s
  }

  function TrimEnd(s: string): (r: string)
    ensures r != [] ==> !IsJsWhitespace(r[|r| - 1])
    decreases |s|
  {
    if s != [] && IsJsWhitespace(s[|s| - 1]) then TrimEnd(s[..|s| - 1]) else s
  }

  /** `trimStart` removes leading whitespace and nothing else. */
  lemma {:induction false} TrimStartRemovesWhitespace(s: string)
    ensures |TrimStart(s)| <= |s| && s[|s| - |TrimStart(s)|..] == TrimStart(s)
    ensures forall i :: 0 <= i < |s| - |TrimStart(s)| ==> IsJsWhitespace(s[i])
    decreases |s|
  {
    if s != [] && IsJsWhitespace(s[0]) {
      TrimStartRemovesWhitespace(s[1..]);
      forall i | 0 < i < |s| - |TrimStart(s)| ensures IsJsWhitespace(s[i]) {
        assert s[i] == s[1..][i - 1];
      }
    }
  }

  /** `trimEnd` removes trailing whitespace and nothing else. */
  lemma {:induction false} TrimEndRemovesWhitespace(s: string)
    ensures TrimEnd(s) <= s
    ensures forall i :: |TrimEnd(s)| <= i < |s| ==> IsJsWhitespace(s[i])
    decreases |s|
  {
    if s != [] && IsJsWhitespace(s[|s| - 1]) {
      TrimEndRemovesWhitespace(s[..|s| - 1]);
      forall i | |TrimEnd(s)| <= i < |s| - 1 ensures IsJsWhitespace(s[i]) {
        assert s[i] == s[..|s| - 1][i];
      }
    }
  }

  /** `trim`: leading and trailing whitespace removed. */
  function Trim(s: string): string
  {
    TrimEnd(TrimStart(s))
  }

  /** `replace(/ /g, '-')`: every space becomes a dash. */
  function SpacesToDashes(s: string): (r: string)
    ensures |r| == |s|
    ensures forall i :: 0 <= i < |s| ==> r[i] == (if s[i] == ' ' then '-' else s[i])
  {
    seq(|s|, i requires 0 <= i < |s| => if s[i] == ' ' then '-' else s[i])
  }

  lemma SpacesToDashesAppend(a: string, b: string)
    ensures SpacesToDashes(a + b) == SpacesToDashes(a) + SpacesToDashes(b)
  {
  }

  /** `toDashCase`. */
  function ToDashCase(s: string): (r: string)
    ensures ' ' !in r
    ensures forall c :: c in r ==> !IsUpper(c)
  {
    ToLowerCase(SpacesToDashes(Trim(InsertSpaces(s))))
  }

  /** The reference dash-casing: every character lowered, and a dash in
      front of every uppercase letter or digit that is not the first
      character. */
  function DashRef(s: string): string
  {
    if s == [] then []
    else [Lower(s[0])] + DashRest(s[1..])
  }

  function DashRest(s: string): string
  {
    if s == [] then [] else (if Marks(s[0]) then ['-', Lower(s[0])] else [Lower(s[0])]) + DashRest(s[1..])
  }

  predicate NoWhitespace(s: string) { forall i :: 0 <= i < |s| ==> !IsJsWhitespace(s[i]) }

  lemma {:induction false} InsertSpacesShape(s: string)
    requires NoWhitespace(s)
    ensures InsertSpaces(s) == [] ||
            !IsJsWhitespace(InsertSpaces(s)[|InsertSpaces(s)| - 1])
  {
    if s != [] {
      InsertSpacesShape(s[1..]);
      if InsertSpaces(s[1..]) == [] {
        assert InsertSpaces(s) == (if Marks(s[0]) then [' ', s[0]] else [s[0]]);
      } else {
        var t := InsertSpaces(s[1..]);
        var h := if Marks(s[0]) then [' ', s[0]] else [s[0]];
        assert (h + t)[|h + t| - 1] == t[|t| - 1];
      }
    }
  }

  /** Lowering the spaced text of a whitespace-free string, spaces turned
      into dashes, is `DashRest` of it. */
  lemma {:induction false} SpacedRest(s: string)
    requires NoWhitespace(s)
    ensures ToLowerCase(SpacesToDashes(InsertSpaces(s))) == DashRest(s)
  {
    if s != [] {
      SpacedRest(s[1..]);
      var h := if Marks(s[0]) then [' ', s[0]] else [s[0]];
      var t := InsertSpaces(s[1..]);
      SpacesToDashesAppend(h, t);
      ToLowerCaseAppend(SpacesToDashes(h), SpacesToDashes(t));
      assert s[0] != ' ';
    }
  }

  /** Trimming the spaced text of a whitespace-free string removes at most
      the space inserted before its first character. */
  lemma TrimInsertSpaces(s: string)
    requires s != [] && !IsJsWhitespace(s[0])
    requires InsertSpaces(s[1..]) == [] || !IsJsWhitespace(InsertSpaces(s[1..])[|InsertSpaces(s[1..])| - 1])
    ensures Trim(InsertSpaces(s)) == [s[0]] + InsertSpaces(s[1..])
  {
    var t := InsertSpaces(s[1..]);
    KeepEnd(s[0], t);
    if Marks(s[0]) {
      assert InsertSpaces(s) == [' '] + ([s[0]] + t);
      SkipLeadingSpace([s[0]] + t);
    } else {
      assert InsertSpaces(s) == [s[0]] + t;
    }
  }

  /** `trimStart` takes off a space put before a non-whitespace character. */
  lemma SkipLeadingSpace(u: string)
    requires u != [] && !IsJsWhitespace(u[0])
    ensures TrimStart([' '] + u) == TrimStart(u)
  {
    assert ([' '] + u)[1..] == u;
  }

  /** A text that starts and ends with no whitespace is left as it is by
      both halves of `trim`. */
  lemma KeepEnd(c: char, t: string)
    requires !IsJsWhitespace(c)
    requires t == [] || !IsJsWhitespace(t[|t| - 1])
    ensures TrimStart([c] + t) == [c] + t
    ensures TrimEnd([c] + t) == [c] + t
  {
    var u := [c] + t;
    assert u[0] == c;
    assert u[|u| - 1] == (if t == [] then c else t[|t| - 1]);
  }

  /** On a string without whitespace, `toDashCase` lowers every character
      and puts a dash before each uppercase letter and digit except at the
      start: `fontWeight` becomes `font-weight`. */
  lemma DashCaseReference(s: string)
    requires NoWhitespace(s)
    ensures ToDashCase(s) == DashRef(s)
  {
    if s != [] {
      InsertSpacesShape(s[1..]);
      TrimInsertSpaces(s);
      var t := InsertSpaces(s[1..]);
      SpacedRest(s[1..]);
      assert s[0] != ' ';
      SpacesToDashesAppend([s[0]], t);
      ToLowerCaseAppend([s[0]], SpacesToDashes(t));
    }
  }

  /** `toDashCase` leaves strings of lowercase letters and dashes unchanged. */
  lemma DashCaseIdentity(s: string)
    requires forall i :: 0 <= i < |s| ==> IsLower(s[i]) || s[i] == '-'
    ensures ToDashCase(s) == s
  {
    DashCaseReference(s);
    DashRefPlain(s);
  }

  lemma {:induction false} DashRestPlain(s: string)
    requires forall i :: 0 <= i < |s| ==> !Marks(s[i]) && !IsUpper(s[i])
    ensures DashRest(s) == s
  {
    if s != [] { DashRestPlain(s[1..]); }
  }

  lemma DashRefPlain(s: string)
    requires forall i :: 0 <= i < |s| ==> !Marks(s[i]) && !IsUpper(s[i])
    ensures DashRef(s) == s
  {
    if s != [] { DashRestPlain(s[1..]); }
  }

  /** Dash-casing a digit-free, whitespace-free name twice is dash-casing it
      once. */
  lemma DashCaseIdempotent(s: string)
    requires NoWhitespace(s)
    requires forall i :: 0 <= i < |s| ==> !IsAsciiDigit(s[i])
    ensures ToDashCase(ToDashCase(s)) == ToDashCase(s)
  {
    DashCaseReference(s);
    var r := DashRef(s);
    DashRefChars(s);
    forall i | 0 <= i < |r| ensures PlainChar(r[i]) {
      assert r[i] in r;
      if r[i] != '-' {
        var j :| 0 <= j < |s| && r[i] == Lower(s[j]);
        LowerPlain(s[j]);
      }
    }
    PlainNoWhitespace(r);
    DashCaseReference(r);
    DashRefPlain(r);
  }

  /** Neither whitespace, nor an uppercase letter, nor a digit. */
  predicate PlainChar(c: char) { !IsJsWhitespace(c) && !Marks(c) && !IsUpper(c) }

  lemma LowerPlain(c: char)
    requires !IsJsWhitespace(c) && !IsAsciiDigit(c)
    ensures PlainChar(Lower(c))
  {
  }

  lemma PlainNoWhitespace(r: string)
    requires forall i :: 0 <= i < |r| ==> PlainChar(r[i])
    ensures NoWhitespace(r)
    ensures forall i :: 0 <= i < |r| ==> !Marks(r[i]) && !IsUpper(r[i])
  {
  }

  lemma {:induction false} DashRestChars(s: string)
    ensures forall c :: c in DashRest(s) ==> c == '-' || exists i :: 0 <= i < |s| && c == Lower(s[i])
  {
    if s != [] {
      DashRestChars(s[1..]);
      forall c | c in DashRest(s) ensures c == '-' || exists i :: 0 <= i < |s| && c == Lower(s[i]) {
        var h := if Marks(s[0]) then ['-', Lower(s[0])] else [Lower(s[0])];
        if c !in h {
          assert c in DashRest(s[1..]);
          if c != '-' {
            var i :| 0 <= i < |s[1..]| && c == Lower(s[1..][i]);
            assert c == Lower(s[i + 1]);
          }
        }
      }
    }
  }

  lemma DashRefChars(s: string)
    ensures forall c :: c in DashRef(s) ==> c == '-' || exists i :: 0 <= i < |s| && c == Lower(s[i])
  {
    if s != [] {
      DashRestChars(s[1..]);
      forall c | c in DashRef(s) ensures c == '-' || exists i :: 0 <= i < |s| && c == Lower(s[i]) {
        if c != Lower(s[0]) {
          assert c in DashRest(s[1..]);
          if c != '-' {
            var i :| 0 <= i < |s[1..]| && c == Lower(s[1..][i]);
            assert c == Lower(s[i + 1]);
          }
        }
      }
    }
  }

  // ---------------------------------------------------------------------
  // Capitalisation

  /** `segment.charAt(0).toUpperCase() + segment.slice(1)`. */
  function Capitalize(s: string): (r: string)
    ensures |r| == |s|
    ensures s != [] ==> r[0] == Upper(s[0]) && r[1..] == s[1..]
  {
    if s == [] then "" else [Upper(s[0])] + s[1..]
  }

  function CapitalizedSegments(s: string): (r: seq<string>)
    ensures |r| == |Split(ToLowerCase(s), '-')|
  {
    var segments := Split(ToLowerCase(s), '-');
    seq(|segments|, i requires 0 <= i < |segments| => Capitalize(segments[i]))
  }

  /** `dashToPascalCase`: the capitalised segments glued together; no dash
      is left. */
  function DashToPascalCase(s: string): (r: string)
    ensures '-' !in r
  {
    CapitalizedSegmentsChars(s);
    JoinChars(CapitalizedSegments(s), "", '-');
    Join(CapitalizedSegments(s), "")
  }

  /** `dashToCapitalWords`: the capitalised segments joined by spaces; no
      dash is left, and as each dash becomes a space the length is kept. */
  function DashToCapitalWords(s: string): (r: string)
    ensures '-' !in r
    ensures |r| == |s|
  {
    CapitalizedSegmentsChars(s);
    JoinChars(CapitalizedSegments(s), " ", '-');
    CapitalWordsLength(s);
    Join(CapitalizedSegments(s), " ")
  }

  /** Capitalising keeps each segment's length, and a space takes each
      dash's place. */
  lemma CapitalWordsLength(s: string)
    ensures |Join(CapitalizedSegments(s), " ")| == |s|
  {
    var low := ToLowerCase(s);
    var segments := Split(low, '-');
    var caps := CapitalizedSegments(s);
    JoinSplit(low, '-');
    JoinLength(segments, ['-']);
    JoinLength(caps, " ");
    assert seq(|caps|, i requires 0 <= i < |caps| => |caps[i]|)
        == seq(|segments|, i requires 0 <= i < |segments| => |segments[i]|);
  }

  lemma CapitalizedSegmentsChars(s: string)
    ensures forall i :: 0 <= i < |CapitalizedSegments(s)| ==> '-' !in CapitalizedSegments(s)[i]
    ensures ' ' !in s ==> forall i :: 0 <= i < |CapitalizedSegments(s)| ==> ' ' !in CapitalizedSegments(s)[i]
  {
    var segments := Split(ToLowerCase(s), '-');
    SplitPiecesExclude(ToLowerCase(s), '-');
    forall i | 0 <= i < |segments| ensures '-' !in CapitalizedSegments(s)[i] {
      assert segments[i] in segments;
      CapitalizeNoChar(segments[i], '-');
    }
    if ' ' !in s {
      LowerNoChar(s, ' ');
      SplitPiecesSubset(ToLowerCase(s), '-');
      forall i | 0 <= i < |segments| ensures ' ' !in CapitalizedSegments(s)[i] {
        assert segments[i] in segments;
        CapitalizeNoChar(segments[i], ' ');
      }
    }
  }

  /** Capitalising brings in no character that is not a capital letter. */
  lemma CapitalizeNoChar(seg: string, c: char)
    requires c !in seg && !IsUpper(c)
    ensures c !in Capitalize(seg)
  {
    forall j | 0 <= j < |seg| ensures Capitalize(seg)[j] != c {
      assert seg[j] in seg;
      if j > 0 {
        assert Capitalize(seg)[1..][j - 1] == seg[1..][j - 1];
      }
    }
  }

  /** Lowering brings in no character that is not a small letter. */
  lemma LowerNoChar(s: string, c: char)
    requires c !in s && !IsLower(c)
    ensures c !in ToLowerCase(s)
  {
    forall j | 0 <= j < |s| ensures ToLowerCase(s)[j] != c {
      assert s[j] in s;
    }
  }

  /** A segment without capitals is what lowering its capitalisation gives. */
  lemma LowerCapitalize(seg: string)
    requires forall c :: c in seg ==> !IsUpper(c)
    ensures ToLowerCase(Capitalize(seg)) == seg
  {
    var r := ToLowerCase(Capitalize(seg));
    forall i | 0 <= i < |seg| ensures r[i] == seg[i] {
      assert seg[i] in seg;
      if i > 0 {
        assert Capitalize(seg)[1..][i - 1] == seg[1..][i - 1];
      }
    }
  }

  /** Every character of a piece of a split is a character of the input. */
  lemma {:induction false} SplitPiecesSubset(s: string, d: char)
    ensures forall p, c :: p in Split(s, d) && c in p ==> c in s
  {
    if s != [] {
      SplitPiecesSubset(s[1..], d);
    }
  }

  lemma {:induction false} LowerJoin(parts: seq<string>)
    ensures ToLowerCase(Join(parts, "")) == Join(seq(|parts|, i requires 0 <= i < |parts| => ToLowerCase(parts[i])), "")
  {
    if |parts| > 1 {
      LowerJoin(parts[1..]);
      ToLowerCaseAppend(parts[0], Join(parts[1..], ""));
      assert seq(|parts|, i requires 0 <= i < |parts| => ToLowerCase(parts[i]))[1..]
          == seq(|parts[1..]|, i requires 0 <= i < |parts[1..]| => ToLowerCase(parts[1..][i]));
      assert parts[0] + "" == parts[0];
      assert ToLowerCase(parts[0]) + "" == ToLowerCase(parts[0]);
    }
  }

  /** Lowered, the Pascal-cased text is the lowered input without its
      dashes: only the first letter of each segment changes case. */
  lemma PascalLowered(s: string)
    ensures ToLowerCase(DashToPascalCase(s)) == Remove(ToLowerCase(s), '-')
  {
    var segments := Split(ToLowerCase(s), '-');
    var caps := CapitalizedSegments(s);
    LowerJoin(caps);
    var lowered := seq(|caps|, i requires 0 <= i < |caps| => ToLowerCase(caps[i]));
    SplitPiecesSubset(ToLowerCase(s), '-');
    forall i | 0 <= i < |caps| ensures lowered[i] == segments[i] {
      SegmentLowered(s, segments, i);
    }
    assert lowered == segments;
    JoinEmptySplit(ToLowerCase(s), '-');
  }

  lemma SegmentLowered(s: string, segments: seq<string>, i: nat)
    requires segments == Split(ToLowerCase(s), '-') && i < |segments|
    requires forall p, c :: p in segments && c in p ==> c in ToLowerCase(s)
    ensures ToLowerCase(CapitalizedSegments(s)[i]) == segments[i]
  {
    assert segments[i] in segments;
    LowerCapitalize(segments[i]);
  }

  /** With no space in the input, `dashToCapitalWords` has one word per
      dash-separated segment, the words being the segments `dashToPascalCase`
      glues together. */
  lemma CapitalWordsSegments(s: string)
    requires ' ' !in s
    ensures Split(DashToCapitalWords(s), ' ') == CapitalizedSegments(s)
    ensures |Split(DashToCapitalWords(s), ' ')| == Count(s, '-') + 1
    ensures Join(Split(DashToCapitalWords(s), ' '), "") == DashToPascalCase(s)
  {
    CapitalizedSegmentsChars(s);
    SplitJoin(CapitalizedSegments(s), ' ');
    SplitCount(ToLowerCase(s), '-');
    LowerKeepsCount(s, '-');
  }

  lemma {:induction false} LowerKeepsCount(s: string, d: char)
    requires !IsUpper(d) && !IsLower(d)
    ensures Count(ToLowerCase(s), d) == Count(s, d)
  {
    if s != [] {
      LowerKeepsCount(s[1..], d);
      assert ToLowerCase(s)[1..] == ToLowerCase(s[1..]);
    }
  }

  /** `toTitleCase`: `charAt(0).toUpperCase() + substr(1)`. */
  function ToTitleCase(s: string): (r: string)
    ensures |r| == |s|
    ensures forall i :: 1 <= i < |s| ==> r[i] == s[i]
    ensures s != [] ==> r[0] == Upper(s[0])
  {
    (if s == [] then "" else [Upper(s[0])]) + (if s == [] then "" else s[1..])
  }

  /** `captializeFirstLetter`: `charAt(0).toUpperCase() + slice(1)`. */
  function CaptializeFirstLetter(s: string): (r: string)
    ensures |r| == |s|
    ensures forall i :: 1 <= i < |s| ==> r[i] == s[i]
    ensures s != [] ==> r[0] == Upper(s[0])
  {
    Capitalize(s)
  }

  /** The two first-letter helpers agree, map the empty string to itself,
      change nothing but the case of the first letter, and are idempotent. */
  lemma FirstLetterHelpers(s: string)
    ensures ToTitleCase(s) == CaptializeFirstLetter(s)
    ensures ToTitleCase("") == ""
    ensures ToLowerCase(ToTitleCase(s)) == ToLowerCase(s)
    ensures ToTitleCase(ToTitleCase(s)) == ToTitleCase(s)
  {
  }
}
