/** `HandwritingOCR.clean_text_for_pdf`: reduces a transcription to characters
    the PDF fonts can draw. Unicode normalisation and the Unicode character
    database are outside the model: the two normal forms and the general
    category of a character are parameters. */
module Sanitizer {

  /** A Unicode general category, such as Lu or Zs: its class letter and its
      subclass letter. */
  datatype Category = Category(major: char, minor: char)

  /** The symbols (class S) that are kept: degree, plus-minus, multiplication,
      division, section, pilcrow, daggers, bullet, per-mille, primes, guillemets. */
  const SafeSymbols: string :=
    "\U{B0}\U{B1}\U{D7}\U{F7}\U{A7}\U{B6}\U{2020}\U{2021}\U{2022}"
    + "\U{2030}\U{2031}\U{2032}\U{2033}\U{2034}\U{2035}\U{2036}\U{2037}\U{2038}\U{2039}\U{203A}"
    + "\U{AB}\U{BB}"

  /** Newline, carriage return and tab: the only control characters kept. */
  const LineControls: string := "\n\r\t"

  /** The replacement table, in its order: curly quotes, dashes, the ellipsis
      and the no-break space become ASCII. */
  const Replacements: seq<(char, string)> := [
    ('\U{2018}', "'"), ('\U{2019}', "'"), ('\U{201C}', "\""), ('\U{201D}', "\""),
    ('\U{2013}', "-"), ('\U{2014}', "--"), ('\U{2026}', "..."), ('\U{A0}', " ")
  ]

  /** Every character of `s` satisfies `P`. */
  predicate All(s: string, P: char -> bool)
  {
    forall i :: 0 <= i < |s| ==> P(s[i])
  }

  /** Replaces each character `c` of `s` by the string `f(c)`. */
  function FlatMap(s: string, f: char -> string): string
  {
    if s == [] then [] else FlatMap(s[..|s| - 1], f) + f(s[|s| - 1])
  }

  /** What the category step does with one character. */
  function CategoryStep(c: char, cat: Category): (r: string)
    ensures r == [] || r == [c] || r == "?"
    ensures c in LineControls ==> r == [c]
  {
    if cat.major == 'L' then [c]
    else if cat.major == 'N' then [c]
    else if cat.major == 'P' then [c]
    else if cat.major == 'S' && c in SafeSymbols then [c]
    else if cat == Category('Z', 's') then [c]
    else if c in LineControls then [c]
    else if cat.major == 'M' then []
    else if cat.major == 'C' then (if c in LineControls then [c] else [])
    else if c as int < 32 then []
    else if c as int > 0xFFFF then "?"
    else [c]
  }

  function CategoryFilter(category: char -> Category): char -> string
  {
    c => CategoryStep(c, category(c))
  }

  /** Zero-width characters, directional marks, line and paragraph
      separators, invisible operators and the byte-order mark. */
  predicate Invisible(c: char)
  {
    ('\U{200B}' <= c <= '\U{200F}') || ('\U{2028}' <= c <= '\U{202F}')
    || ('\U{205F}' <= c <= '\U{206F}') || c == '\U{FEFF}'
  }

  const DropInvisible: char -> string := c => if Invisible(c) then [] else [c]

  function ReplaceWith(target: char, replacement: string): char -> string
  {
    c => if c == target then replacement else [c]
  }

  /** `str.replace` of one character by a string. */
  function ReplaceAll(s: string, target: char, replacement: string): string
  {
    FlatMap(s, ReplaceWith(target, replacement))
  }

  /** The replacement pairs applied one after another. */
  function ApplyReplacements(s: string, table: seq<(char, string)>): string
    decreases |table|
  {
    if table == [] then s else ApplyReplacements(ReplaceAll(s, table[0].0, table[0].1), table[1..])
  }

  /** The Latin-1 check: a character that cannot be encoded (above U+00FF)
      is dropped. */
  const KeepLatin1: char -> string := c => if c as int <= 0xFF then [c] else []

  /** The whole cleaning as one function of the input. */
  function Clean(text: string, nfd: string -> string, nfc: string -> string,
                 category: char -> Category): string
  {
    if text == [] then text
    else
      var normalized := nfc(nfd(text));
      var kept := FlatMap(normalized, CategoryFilter(category));
      var visible := FlatMap(kept, DropInvisible);
      FlatMap(ApplyReplacements(visible, Replacements), KeepLatin1)
  }

  /** The cleaning, step by step as the source performs it. */
  method CleanTextForPdf(text: string, nfd: string -> string, nfc: string -> string,
                         category: char -> Category) returns (r: string)
    ensures r == Clean(text, nfd, nfc, category)
    ensures text == [] ==> r == []
  {
    if text == [] {
      return text;
    }
    var normalized := nfc(nfd(text));
    var kept := KeepByCategory(normalized, category);
    var cleaned := FlatMap(kept, DropInvisible);
    cleaned := ReplaceEach(cleaned, Replacements);
    r := EncodableOnly(cleaned);
  }

  /** Step 2: one pass over the characters, deciding by general category. */
  method KeepByCategory(s: string, category: char -> Category) returns (kept: string)
    ensures kept == FlatMap(s, CategoryFilter(category))
  {
    kept := "";
    for i := 0 to |s|
      invariant kept == FlatMap(s[..i], CategoryFilter(category))
    {
      assert s[..i + 1][..i] == s[..i];
      kept := kept + CategoryStep(s[i], category(s[i]));
    }
    assert s[..|s|] == s;
  }

  /** Step 4: the replacement pairs, one `str.replace` each, in table order. */
  method ReplaceEach(s: string, table: seq<(char, string)>) returns (r: string)
    ensures r == ApplyReplacements(s, table)
  {
    r := s;
    for k := 0 to |table|
      invariant ApplyReplacements(r, table[k..]) == ApplyReplacements(s, table)
    {
      assert table[k..][1..] == table[k + 1..];
      r := ReplaceAll(r, table[k].0, table[k].1);
    }
  }

  /** Step 5: keeps the characters that Latin-1 can encode. */
  method EncodableOnly(s: string) returns (r: string)
    ensures r == FlatMap(s, KeepLatin1)
  {
    r := "";
    for i := 0 to |s|
      invariant r == FlatMap(s[..i], KeepLatin1)
    {
      assert s[..i + 1][..i] == s[..i];
      if s[i] as int <= 0xFF {
        r := r + [s[i]];
      }
    }
    assert s[..|s|] == s;
  }

  // ---------------------------------------------------------------------
  // Properties of FlatMap

  lemma {:induction false} FlatMapAppend(a: string, b: string, f: char -> string)
    ensures FlatMap(a + b, f) == FlatMap(a, f) + FlatMap(b, f)
    decreases |b|
  {
    if b == [] {
      assert a + b == a;
    } else {
      assert (a + b)[..|a + b| - 1] == a + b[..|b| - 1];
      FlatMapAppend(a, b[..|b| - 1], f);
    }
  }

  /** A map that sends every character into `P` yields only `P` characters. */
  lemma {:induction false} FlatMapInto(s: string, f: char -> string, P: char -> bool)
    requires forall c :: All(f(c), P)
    ensures All(FlatMap(s, f), P)
    decreases |s|
  {
    if s != [] {
      FlatMapInto(s[..|s| - 1], f, P);
      assert All(f(s[|s| - 1]), P);
    }
  }

  /** A map that sends `P` characters to `P` characters keeps an all-`P` string all-`P`. */
  lemma {:induction false} FlatMapStable(s: string, f: char -> string, P: char -> bool)
    requires forall c :: P(c) ==> All(f(c), P)
    requires All(s, P)
    ensures All(FlatMap(s, f), P)
    decreases |s|
  {
    if s != [] {
      FlatMapStable(s[..|s| - 1], f, P);
      assert P(s[|s| - 1]);
    }
  }

  /** A map that sends every character to itself is the identity. */
  lemma {:induction false} FlatMapIdentity(s: string, f: char -> string)
    requires forall i :: 0 <= i < |s| ==> f(s[i]) == [s[i]]
    ensures FlatMap(s, f) == s
    decreases |s|
  {
    if s != [] {
      FlatMapIdentity(s[..|s| - 1], f);
      assert s[..|s| - 1] + [s[|s| - 1]] == s;
    }
  }

  // ---------------------------------------------------------------------
  // Line structure

  const LinesOnly: char -> string := c => if c in LineControls then [c] else []

  /** The newlines, carriage returns and tabs of `s`, in order. */
  function LineStructure(s: string): string
  {
    FlatMap(s, LinesOnly)
  }

  /** A map that keeps line controls and never produces one otherwise leaves
      the line structure alone. */
  lemma {:induction false} FlatMapKeepsLines(s: string, f: char -> string)
    requires forall c :: c in LineControls ==> f(c) == [c]
    requires forall c :: c !in LineControls ==> All(f(c), x => x !in LineControls)
    ensures LineStructure(FlatMap(s, f)) == LineStructure(s)
    decreases |s|
  {
    if s != [] {
      var init, last := s[..|s| - 1], s[|s| - 1];
      FlatMapKeepsLines(init, f);
      FlatMapAppend(FlatMap(init, f), f(last), LinesOnly);
      if last !in LineControls {
        NoLines(f(last));
      }
    }
  }

  lemma {:induction false} NoLines(t: string)
    requires All(t, x => x !in LineControls)
    ensures LineStructure(t) == []
    decreases |t|
  {
    if t != [] {
      NoLines(t[..|t| - 1]);
    }
  }

  lemma {:induction false} ReplacementsKeepLines(s: string, table: seq<(char, string)>)
    requires forall k :: 0 <= k < |table| ==>
      table[k].0 !in LineControls && All(table[k].1, x => x !in LineControls)
    ensures LineStructure(ApplyReplacements(s, table)) == LineStructure(s)
    decreases |table|
  {
    if table != [] {
      FlatMapKeepsLines(s, ReplaceWith(table[0].0, table[0].1));
      ReplacementsKeepLines(ReplaceAll(s, table[0].0, table[0].1), table[1..]);
    }
  }

  // ---------------------------------------------------------------------
  // The replacement table

  /** Replacement steps keep a property that every replacement text has. */
  lemma {:induction false} ReplacementsStable(s: string, table: seq<(char, string)>, P: char -> bool)
    requires forall k :: 0 <= k < |table| ==> All(table[k].1, P)
    requires All(s, P)
    ensures All(ApplyReplacements(s, table), P)
    decreases |table|
  {
    if table != [] {
      FlatMapStable(s, ReplaceWith(table[0].0, table[0].1), P);
      ReplacementsStable(ReplaceAll(s, table[0].0, table[0].1), table[1..], P);
    }
  }

  /** When no replacement text contains a replaced character, none of the
      replaced characters is left. */
  lemma {:induction false} ReplacementsClear(s: string, table: seq<(char, string)>)
    requires forall j, k :: 0 <= j < |table| && 0 <= k < |table| ==> table[j].0 !in table[k].1
    ensures forall j :: 0 <= j < |table| ==> All(ApplyReplacements(s, table), x => x != table[j].0)
    decreases |table|
  {
    if table != [] {
      var t := table[0].0;
      var once := ReplaceAll(s, t, table[0].1);
      FlatMapInto(s, ReplaceWith(t, table[0].1), x => x != t);
      ReplacementsStable(once, table[1..], x => x != t);
      ReplacementsClear(once, table[1..]);
      forall j | 0 < j < |table|
        ensures All(ApplyReplacements(s, table), x => x != table[j].0)
      {
        assert table[j] == table[1..][j - 1];
      }
    }
  }

  /** Dropping the characters above U+00FF brings no character back. */
  lemma Latin1KeepsAbsence(s: string, t: char)
    requires All(s, c => c != t)
    ensures All(FlatMap(s, KeepLatin1), c => c != t)
  {
    FlatMapStable(s, KeepLatin1, x => x != t);
  }

  /** Facts about the replacement table used below. */
  lemma TableFacts()
    ensures forall k :: 0 <= k < |Replacements| ==>
      Replacements[k].0 !in LineControls && All(Replacements[k].1, x => x !in LineControls)
    ensures forall j, k :: 0 <= j < |Replacements| && 0 <= k < |Replacements| ==>
      Replacements[j].0 !in Replacements[k].1
  {
  }

  // ---------------------------------------------------------------------
  // What the cleaned text is

  /** Every character of the result is in Latin-1. */
  lemma CleanIsLatin1(text: string, nfd: string -> string, nfc: string -> string,
                      category: char -> Category)
    ensures All(Clean(text, nfd, nfc, category), c => c as int <= 0xFF)
  {
    if text != [] {
      var normalized := nfc(nfd(text));
      var kept := FlatMap(normalized, CategoryFilter(category));
      var visible := FlatMap(kept, DropInvisible);
      FlatMapInto(ApplyReplacements(visible, Replacements), KeepLatin1, c => c as int <= 0xFF);
    }
  }

  /** No curly quote, en or em dash, ellipsis or no-break space is left. */
  lemma CleanHasNoReplacedCharacters(text: string, nfd: string -> string, nfc: string -> string,
                                     category: char -> Category)
    ensures forall j :: 0 <= j < |Replacements| ==>
      All(Clean(text, nfd, nfc, category), c => c != Replacements[j].0)
  {
    if text != [] {
      var normalized := nfc(nfd(text));
      var kept := FlatMap(normalized, CategoryFilter(category));
      var visible := FlatMap(kept, DropInvisible);
      var replaced := ApplyReplacements(visible, Replacements);
      TableFacts();
      ReplacementsClear(visible, Replacements);
      forall j | 0 <= j < |Replacements|
        ensures All(FlatMap(replaced, KeepLatin1), c => c != Replacements[j].0)
      {
        Latin1KeepsAbsence(replaced, Replacements[j].0);
      }
    } else {
      assert Clean(text, nfd, nfc, category) == [];
    }
  }

  lemma CategoryStepKeepsLines(category: char -> Category)
    ensures forall c :: c in LineControls ==> CategoryFilter(category)(c) == [c]
    ensures forall c :: c !in LineControls ==> All(CategoryFilter(category)(c), x => x !in LineControls)
  {
    forall c | c !in LineControls
      ensures All(CategoryFilter(category)(c), x => x !in LineControls)
    {
      var r := CategoryStep(c, category(c));
      assert r == [] || r == [c] || r == "?";
    }
  }

  lemma SimpleStepsKeepLines()
    ensures forall c :: c in LineControls ==> DropInvisible(c) == [c] && KeepLatin1(c) == [c]
    ensures forall c :: c !in LineControls ==>
      All(DropInvisible(c), x => x !in LineControls) && All(KeepLatin1(c), x => x !in LineControls)
  {
  }

  /** Newlines, carriage returns and tabs survive, in order, so the line
      layout of the normalised text is kept. */
  lemma CleanKeepsLineStructure(text: string, nfd: string -> string, nfc: string -> string,
                                category: char -> Category)
    requires text != []
    ensures LineStructure(Clean(text, nfd, nfc, category)) == LineStructure(nfc(nfd(text)))
  {
    var normalized := nfc(nfd(text));
    var kept := FlatMap(normalized, CategoryFilter(category));
    var visible := FlatMap(kept, DropInvisible);
    var replaced := ApplyReplacements(visible, Replacements);
    CategoryStepKeepsLines(category);
    SimpleStepsKeepLines();
    TableFacts();
    FlatMapKeepsLines(normalized, CategoryFilter(category));
    FlatMapKeepsLines(kept, DropInvisible);
    ReplacementsKeepLines(visible, Replacements);
    FlatMapKeepsLines(replaced, KeepLatin1);
  }

  /** A character that every step leaves alone: kept by its category, in
      Latin-1, and not one of the replaced characters. */
  predicate Plain(c: char, cat: Category)
  {
    (cat.major in "LNP" || cat == Category('Z', 's') || c in LineControls
     || (cat.major == 'S' && c in SafeSymbols))
    && c as int <= 0xFF
    && forall j :: 0 <= j < |Replacements| ==> c != Replacements[j].0
  }

  /** Text that is already in normal form and made of plain characters comes
      back unchanged. */
  lemma CleanKeepsPlainText(text: string, nfd: string -> string, nfc: string -> string,
                            category: char -> Category)
    requires nfc(nfd(text)) == text
    requires forall i :: 0 <= i < |text| ==> Plain(text[i], category(text[i]))
    ensures Clean(text, nfd, nfc, category) == text
  {
    if text != [] {
      FlatMapIdentity(text, CategoryFilter(category));
      FlatMapIdentity(text, DropInvisible);
      ReplacementsIdentity(text, Replacements);
      FlatMapIdentity(text, KeepLatin1);
    }
  }

  lemma {:induction false} ReplacementsIdentity(s: string, table: seq<(char, string)>)
    requires forall i, j :: 0 <= i < |s| && 0 <= j < |table| ==> s[i] != table[j].0
    ensures ApplyReplacements(s, table) == s
    decreases |table|
  {
    if table != [] {
      FlatMapIdentity(s, ReplaceWith(table[0].0, table[0].1));
      ReplacementsIdentity(s, table[1..]);
    }
  }
}
