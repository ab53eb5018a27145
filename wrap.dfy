/** The word wrap of `HandwritingOCR.create_individual_pdf`: which strings are
    drawn, one per text line of the PDF, for a cleaned transcription. The
    canvas, fonts and page coordinates are not modelled. */
module Wrap {
  import opened Strings

  /** A line longer than this many characters is wrapped. */
  const WrapLimit := 80

  // ---------------------------------------------------------------------
  // Python's str.split(sep) with a one-character separator

  /** `s.split(sep)`: the maximal runs between separators, empty ones included. */
  function SplitOn(s: string, sep: char): (parts: seq<string>)
    ensures |parts| >= 1
    ensures forall i :: 0 <= i < |parts| ==> sep !in parts[i]
  {
    if s == [] then [""]
    else
      var parts := SplitOn(s[..|s| - 1], sep);
      var c := s[|s| - 1];
      if c == sep then parts + [""]
      else parts[..|parts| - 1] + [parts[|parts| - 1] + [c]]
  }

  /** `sep.join(parts)`. */
  function JoinWith(parts: seq<string>, sep: char): string
    requires |parts| >= 1
  {
    if |parts| == 1 then parts[0]
    else JoinWith(parts[..|parts| - 1], sep) + [sep] + parts[|parts| - 1]
  }

  /** Joining the parts again gives back the string. */
  lemma {:induction false} JoinSplit(s: string, sep: char)
    ensures JoinWith(SplitOn(s, sep), sep) == s
    decreases |s|
  {
    if s != [] {
      var init, c := s[..|s| - 1], s[|s| - 1];
      var parts := SplitOn(init, sep);
      JoinSplit(init, sep);
      var n := |parts|;
      if c != sep {
        var last := parts[n - 1] + [c];
        var parts' := parts[..n - 1] + [last];
        assert SplitOn(s, sep) == parts';
        assert JoinWith(parts', sep) == init + [c] by {
          if n > 1 {
            assert parts'[..n - 1] == parts[..n - 1];
            assert JoinWith(parts', sep) == JoinWith(parts[..n - 1], sep) + [sep] + last;
            assert JoinWith(parts, sep) == JoinWith(parts[..n - 1], sep) + [sep] + parts[n - 1];
          }
        }
      } else {
        assert SplitOn(s, sep) == parts + [""];
        assert JoinWith(parts + [""], sep) == init + [sep] by {
          assert (parts + [""])[..n] == parts;
        }
      }
      assert init + [c] == s;
    }
  }

  // ---------------------------------------------------------------------
  // Python's str.split() with no argument: the whitespace-separated words

  function Flush(word: string): seq<string>
  {
    if word == [] then [] else [word]
  }

  /** The words of `s`, the first one continuing `word`. */
  function Words(s: string, word: string): seq<string>
    decreases |s|
  {
    if s == [] then Flush(word)
    else if IsSpace(s[0]) then Flush(word) + Words(s[1..], [])
    else Words(s[1..], word + [s[0]])
  }

  /** `s.split()`. */
  function Tokens(s: string): seq<string>
  {
    Words(s, [])
  }

  /** A whitespace character separates the words on either side of it. */
  lemma {:induction false} WordsSplit(a: string, sp: char, b: string, word: string)
    requires IsSpace(sp)
    ensures Words(a + [sp] + b, word) == Words(a, word) + Words(b, [])
    decreases |a|
  {
    if a == [] {
      assert (a + [sp] + b)[1..] == b;
    } else {
      assert (a + [sp] + b)[1..] == a[1..] + [sp] + b;
      if IsSpace(a[0]) {
        WordsSplit(a[1..], sp, b, []);
      } else {
        WordsSplit(a[1..], sp, b, word + [a[0]]);
      }
    }
  }

  lemma {:induction false} LeadingSpace(p: string, t: string)
    requires AllSpace(p)
    ensures Words(p + t, []) == Words(t, [])
    decreases |p|
  {
    if p != [] {
      assert (p + t)[0] == p[0] && IsSpace(p[0]);
      assert (p + t)[1..] == p[1..] + t;
      assert Words(p + t, []) == Flush([]) + Words(p[1..] + t, []);
      LeadingSpace(p[1..], t);
    } else {
      assert p + t == t;
    }
  }

  lemma {:induction false} TrailingSpace(r: string, q: string, word: string)
    requires AllSpace(q)
    ensures Words(r + q, word) == Words(r, word)
    decreases |r| + |q|
  {
    if r == [] {
      if q != [] {
        assert ([] + q[1..]) == q[1..];
        TrailingSpace([], q[1..], []);
        assert r + q == q;
      }
    } else {
      assert (r + q)[1..] == r[1..] + q;
      if IsSpace(r[0]) {
        TrailingSpace(r[1..], q, []);
      } else {
        TrailingSpace(r[1..], q, word + [r[0]]);
      }
    }
  }

  /** `strip()` keeps every word. */
  lemma TokensStrip(s: string)
    ensures Tokens(Strip(s)) == Tokens(s)
  {
    TokensTrimStart(s);
    TokensTrimEnd(TrimStart(s));
  }

  lemma TokensTrimStart(s: string)
    ensures Tokens(TrimStart(s)) == Tokens(s)
  {
    var t := TrimStart(s);
    var p := s[..|s| - |t|];
    assert s == p + t;
    LeadingSpace(p, t);
  }

  lemma TokensTrimEnd(t: string)
    ensures Tokens(TrimEnd(t)) == Tokens(t)
  {
    var r := TrimEnd(t);
    var q := t[|r|..];
    assert t == r + q;
    TrailingSpace(r, q, []);
  }

  /** Stripping a string that ends in whitespace drops at least its last
      character, and keeps only characters from before it. */
  lemma StripBeforeLast(s: string)
    requires s != [] && IsSpace(s[|s| - 1])
    ensures |Strip(s)| < |s|
    ensures forall c :: c in Strip(s) ==> c in s[..|s| - 1]
  {
    var t := TrimStart(s);
    var k := |s| - |t|;
    var r := TrimEnd(t);
    if t != [] {
      assert t[|t| - 1] == s[|s| - 1];
      assert |r| < |t|;
      assert r == s[k..k + |r|];
      forall c | c in r
        ensures c in s[..|s| - 1]
      {
        var i :| 0 <= i < |r| && r[i] == c;
        assert s[..|s| - 1][k + i] == c;
      }
    }
  }

  // ---------------------------------------------------------------------
  // The wrap

  /** The loop state: the pieces drawn so far and `current_line`. */
  datatype WrapState = WrapState(drawn: seq<string>, current: string)

  /** One word: appended while the line stays under the limit, otherwise the
      line so far is drawn (stripped) and a new one starts with the word. */
  function Step(st: WrapState, word: string): WrapState
  {
    if |st.current + word| < WrapLimit then WrapState(st.drawn, st.current + word + " ")
    else WrapState(if st.current != [] then st.drawn + [Strip(st.current)] else st.drawn, word + " ")
  }

  function Fold(words: seq<string>): WrapState
  {
    if words == [] then WrapState([], "") else Step(Fold(words[..|words| - 1]), words[|words| - 1])
  }

  /** The pieces of a line that is wrapped. */
  function WrapLong(line: string): seq<string>
  {
    var st := Fold(SplitOn(line, ' '));
    if st.current != [] then st.drawn + [Strip(st.current)] else st.drawn
  }

  /** The strings drawn for one line of the transcription. */
  function LinePieces(line: string): seq<string>
  {
    if |line| > WrapLimit then WrapLong(line) else [line]
  }

  /** The strings drawn for a whole transcription, line after line. */
  function AllPieces(lines: seq<string>): seq<string>
  {
    if lines == [] then [] else AllPieces(lines[..|lines| - 1]) + LinePieces(lines[|lines| - 1])
  }

  function DrawnPieces(text: string): seq<string>
  {
    AllPieces(SplitOn(text, '\n'))
  }

  /** The wrap loop for one line, as the source runs it. */
  method WrapLine(line: string) returns (pieces: seq<string>)
    ensures pieces == LinePieces(line)
  {
    if |line| > WrapLimit {
      var words := SplitOn(line, ' ');
      var currentLine := "";
      pieces := [];
      for i := 0 to |words|
        invariant WrapState(pieces, currentLine) == Fold(words[..i])
      {
        assert words[..i + 1][..i] == words[..i];
        var word := words[i];
        if |currentLine + word| < WrapLimit {
          currentLine := currentLine + word + " ";
        } else {
          if currentLine != [] {
            pieces := pieces + [Strip(currentLine)];
          }
          currentLine := word + " ";
        }
      }
      assert words[..|words|] == words;
      if currentLine != [] {
        pieces := pieces + [Strip(currentLine)];
      }
    } else {
      pieces := [line];
    }
  }

  lemma AllPiecesNext(lines: seq<string>, i: nat)
    requires i < |lines|
    ensures AllPieces(lines[..i + 1]) == AllPieces(lines[..i]) + LinePieces(lines[i])
  {
    assert lines[..i + 1][..i] == lines[..i];
  }

  /** The loop over the lines of the cleaned transcription. */
  method TranscriptionPieces(cleaned: string) returns (pieces: seq<string>)
    ensures pieces == DrawnPieces(cleaned)
  {
    var lines := SplitOn(cleaned, '\n');
    pieces := [];
    for i := 0 to |lines|
      invariant pieces == AllPieces(lines[..i])
    {
      AllPiecesNext(lines, i);
      var linePieces := WrapLine(lines[i]);
      pieces := pieces + linePieces;
    }
    assert lines[..|lines|] == lines;
  }

  // ---------------------------------------------------------------------
  // What is drawn

  /** The words of every piece, in order. */
  function PieceWords(pieces: seq<string>): seq<string>
  {
    if pieces == [] then [] else PieceWords(pieces[..|pieces| - 1]) + Tokens(pieces[|pieces| - 1])
  }

  lemma {:induction false} PieceWordsAppend(a: seq<string>, b: seq<string>)
    ensures PieceWords(a + b) == PieceWords(a) + PieceWords(b)
    decreases |b|
  {
    if b == [] {
      assert a + b == a;
    } else {
      assert (a + b)[..|a + b| - 1] == a + b[..|b| - 1];
      PieceWordsAppend(a, b[..|b| - 1]);
    }
  }

  lemma TrailingBlank(w: string)
    ensures Tokens(w + " ") == Tokens(w)
  {
    WordsSplit(w, ' ', [], []);
    assert w + [' '] + [] == w + " ";
  }

  /** One more word keeps the words drawn and pending equal to those of the
      words so far, joined by spaces. */
  lemma StepKeepsWords(st: WrapState, w: string, joined: string)
    requires st.current != [] && st.current[|st.current| - 1] == ' '
    requires PieceWords(st.drawn) + Tokens(st.current) == Tokens(joined)
    ensures Step(st, w).current != [] && Step(st, w).current[|Step(st, w).current| - 1] == ' '
    ensures PieceWords(Step(st, w).drawn) + Tokens(Step(st, w).current) == Tokens(joined + [' '] + w)
  {
    var cur := st.current;
    var c' := cur[..|cur| - 1];
    SpaceEnded(cur);
    assert Tokens(joined + [' '] + w) == Tokens(joined) + Tokens(w) by {
      WordsSplit(joined, ' ', w, []);
    }
    TrailingBlank(w);
    if |cur + w| < WrapLimit {
      Extended(cur, w);
    } else {
      TokensStrip(cur);
      assert PieceWords(st.drawn + [Strip(cur)]) == PieceWords(st.drawn) + Tokens(Strip(cur));
    }
  }

  /** A trailing space adds no word. */
  lemma SpaceEnded(cur: string)
    requires cur != [] && cur[|cur| - 1] == ' '
    ensures Tokens(cur) == Tokens(cur[..|cur| - 1])
  {
    var c' := cur[..|cur| - 1];
    assert cur == c' + [' '] + [];
    WordsSplit(c', ' ', [], []);
  }

  /** Appending a word and a space to a line ending in a space appends the word. */
  lemma Extended(cur: string, w: string)
    requires cur != [] && cur[|cur| - 1] == ' '
    ensures Tokens(cur + w + " ") == Tokens(cur[..|cur| - 1]) + Tokens(w + " ")
  {
    var c' := cur[..|cur| - 1];
    assert cur + w + " " == c' + [' '] + (w + " ");
    WordsSplit(c', ' ', w + " ", []);
  }

  /** The wrap state after some words: the words drawn and pending are those
      of the words joined by spaces, and the pending line ends in a space. */
  lemma {:induction false} FoldKeepsWords(words: seq<string>)
    requires |words| >= 1
    ensures Fold(words).current != [] && Fold(words).current[|Fold(words).current| - 1] == ' '
    ensures PieceWords(Fold(words).drawn) + Tokens(Fold(words).current) == Tokens(JoinWith(words, ' '))
    decreases |words|
  {
    var n := |words|;
    var w := words[n - 1];
    if n == 1 {
      assert words[..n - 1] == [];
      assert Fold(words) == Step(WrapState([], ""), w);
      assert JoinWith(words, ' ') == w;
      TrailingBlank(w);
      assert [] + w + " " == w + " ";
    } else {
      FoldKeepsWords(words[..n - 1]);
      StepKeepsWords(Fold(words[..n - 1]), w, JoinWith(words[..n - 1], ' '));
    }
  }

  /** A long line's pieces hold exactly its words, in order. */
  lemma WrapLongKeepsWords(line: string)
    ensures PieceWords(WrapLong(line)) == Tokens(line)
  {
    var words := SplitOn(line, ' ');
    FoldKeepsWords(words);
    JoinSplit(line, ' ');
    var st := Fold(words);
    TokensStrip(st.current);
    assert WrapLong(line) == st.drawn + [Strip(st.current)];
  }

  /** A pending line is empty, or ends in a space and either fits the limit
      or is one word followed by that space. */
  predicate PendingFits(cur: string)
  {
    cur == [] || (cur[|cur| - 1] == ' ' && (|cur| <= WrapLimit || ' ' !in cur[..|cur| - 1]))
  }

  /** Every piece drawn is short, or holds no space (one word). */
  predicate PiecesFit(drawn: seq<string>)
  {
    forall p :: p in drawn ==> |p| < WrapLimit || ' ' !in p
  }

  lemma StripFits(cur: string)
    requires cur != [] && PendingFits(cur)
    ensures |Strip(cur)| < WrapLimit || ' ' !in Strip(cur)
  {
    StripBeforeLast(cur);
  }

  lemma StepWidths(st: WrapState, w: string)
    requires ' ' !in w
    requires PiecesFit(st.drawn) && PendingFits(st.current)
    ensures PiecesFit(Step(st, w).drawn) && PendingFits(Step(st, w).current)
  {
    var cur := st.current;
    if |cur + w| < WrapLimit {
      var next := cur + w + " ";
      assert next[|next| - 1] == ' ' && |next| <= WrapLimit;
    } else {
      StartLine(w);
      if cur != [] {
        DrawLine(st.drawn, cur);
      }
    }
  }

  /** A new pending line holding one word fits. */
  lemma StartLine(w: string)
    requires ' ' !in w
    ensures PendingFits(w + " ")
  {
    assert (w + " ")[..|w + " "| - 1] == w;
  }

  /** Drawing a pending line that fits keeps the pieces fitting. */
  lemma DrawLine(drawn: seq<string>, cur: string)
    requires cur != [] && PiecesFit(drawn) && PendingFits(cur)
    ensures PiecesFit(drawn + [Strip(cur)])
  {
    StripFits(cur);
    forall p | p in drawn + [Strip(cur)]
      ensures |p| < WrapLimit || ' ' !in p
    {
      if p !in drawn {
        assert p == Strip(cur);
      }
    }
  }

  lemma {:induction false} FoldWidths(words: seq<string>)
    requires forall i :: 0 <= i < |words| ==> ' ' !in words[i]
    ensures PiecesFit(Fold(words).drawn) && PendingFits(Fold(words).current)
    decreases |words|
  {
    if words != [] {
      var n := |words|;
      FoldWidths(words[..n - 1]);
      StepWidths(Fold(words[..n - 1]), words[n - 1]);
    }
  }

  lemma WrapLongWidths(line: string)
    ensures forall p :: p in WrapLong(line) ==> |p| < WrapLimit || ' ' !in p
  {
    var words := SplitOn(line, ' ');
    FoldWidths(words);
    var cur := Fold(words).current;
    if cur != [] {
      StripFits(cur);
    }
  }

  /** What the source promises of one line: a line of at most 80 characters
      is drawn as it is; a longer one is drawn as pieces that hold its words
      in order, each under 80 characters unless it is a single word. */
  lemma LinePiecesSpec(line: string)
    ensures |line| <= WrapLimit ==> LinePieces(line) == [line]
    ensures PieceWords(LinePieces(line)) == Tokens(line)
    ensures |line| > WrapLimit ==>
      forall p :: p in LinePieces(line) ==> |p| < WrapLimit || ' ' !in p
  {
    if |line| > WrapLimit {
      WrapLongKeepsWords(line);
      WrapLongWidths(line);
    } else {
      assert PieceWords([line]) == PieceWords([]) + Tokens(line);
    }
  }

  lemma {:induction false} AllPiecesKeepWords(lines: seq<string>)
    requires |lines| >= 1
    ensures PieceWords(AllPieces(lines)) == Tokens(JoinWith(lines, '\n'))
    decreases |lines|
  {
    var n := |lines|;
    LinePiecesSpec(lines[n - 1]);
    PieceWordsAppend(AllPieces(lines[..n - 1]), LinePieces(lines[n - 1]));
    if n == 1 {
      assert lines[..0] == [];
    } else {
      AllPiecesKeepWords(lines[..n - 1]);
      WordsSplit(JoinWith(lines[..n - 1], '\n'), '\n', lines[n - 1], []);
    }
  }

  /** Every word of the cleaned transcription is drawn, in order, and
      nothing else is. */
  lemma DrawnPiecesKeepWords(text: string)
    ensures PieceWords(DrawnPieces(text)) == Tokens(text)
  {
    AllPiecesKeepWords(SplitOn(text, '\n'));
    JoinSplit(text, '\n');
  }
}
