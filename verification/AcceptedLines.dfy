/** The unified-diff scanner that counts accepted lines and lists the effective added ones.
    Fingerprints are the (path, line) pairs before hashing. Whether a character is
    alphanumeric is a parameter: nothing proved here depends on the Unicode tables. */
module AcceptedLines {
  import opened Protocol

  // ---- Text ----

  /** Unicode White_Space. */
  predicate IsWhitespace(c: char) {
    var n := c as int;
    0x9 <= n <= 0xD || n == 0x20 || n == 0x85 || n == 0xA0 || n == 0x1680 || 0x2000 <= n <= 0x200A
    || n == 0x2028 || n == 0x2029 || n == 0x202F || n == 0x205F || n == 0x3000
  }

  function Utf8Length(text: string): nat {
    if text == "" then 0
    else
      var n := text[0] as int;
      (if n < 0x80 then 1 else if n < 0x800 then 2 else if n < 0x10000 then 3 else 4) + Utf8Length(text[1..])
  }

  function IndexOf(text: string, c: char): (n: nat)
    ensures n <= |text| && c !in text[..n] && (n < |text| ==> text[n] == c)
  {
    if text == "" || text[0] == c then 0 else 1 + IndexOf(text[1..], c)
  }

  function DropCarriageReturn(line: string): string {
    if line != "" && line[|line| - 1] == '\r' then line[..|line| - 1] else line
  }

  /** `str::lines`. */
  function Lines(text: string): seq<string>
    decreases |text|
  {
    if text == "" then []
    else
      var n := IndexOf(text, '\n');
      if n == |text| then [text] else [DropCarriageReturn(text[..n])] + Lines(text[n + 1..])
  }

  function Print(lines: seq<string>): string {
    if lines == [] then "" else lines[0] + "\n" + Print(lines[1..])
  }

  function Chomped(lines: seq<string>): (r: seq<string>)
    ensures |r| == |lines|
  {
    if lines == [] then [] else [DropCarriageReturn(lines[0])] + Chomped(lines[1..])
  }

  lemma {:induction false} IndexOfFirst(line: string, rest: string)
    requires '\n' !in line
    ensures IndexOf(line + "\n" + rest, '\n') == |line|
  {
    if line != "" {
      assert (line + "\n" + rest)[1..] == line[1..] + "\n" + rest;
      IndexOfFirst(line[1..], rest);
    }
  }

  lemma {:induction false} IndexOfNone(line: string)
    requires '\n' !in line
    ensures IndexOf(line, '\n') == |line|
  {
    if line != "" { IndexOfNone(line[1..]); }
  }

  lemma {:induction false} LinesCons(line: string, rest: string)
    requires '\n' !in line
    ensures Lines(line + "\n" + rest) == [DropCarriageReturn(line)] + Lines(rest)
  {
    hide DropCarriageReturn;
    var text := line + "\n" + rest;
    IndexOfFirst(line, rest);
    assert text[..|line|] == line && text[|line| + 1..] == rest;
  }

  /** Splitting printed lines gives them back, each without one trailing carriage return, and an
      unterminated last line as it is. */
  lemma {:induction false} LinesOfText(lines: seq<string>, last: string)
    requires '\n' !in last && forall i :: 0 <= i < |lines| ==> '\n' !in lines[i]
    ensures Lines(Print(lines) + last) == Chomped(lines) + if last == "" then [] else [last]
  {
    hide DropCarriageReturn;
    if lines == [] {
      assert Print(lines) + last == last;
      IndexOfNone(last);
    } else {
      hide Lines;
      var rest := Print(lines[1..]) + last;
      assert Print(lines) + last == lines[0] + "\n" + rest;
      LinesCons(lines[0], rest);
      LinesOfText(lines[1..], last);
    }
  }

  lemma {:induction false} LinesOfPrint(lines: seq<string>)
    requires forall i :: 0 <= i < |lines| ==> '\n' !in lines[i]
    ensures Lines(Print(lines)) == Chomped(lines)
  {
    LinesOfText(lines, "");
    assert Print(lines) + "" == Print(lines) && Chomped(lines) + [] == Chomped(lines);
  }

  // ---- Line normalisation ----

  function WordEnd(text: string): (n: nat)
    ensures n <= |text| && (n < |text| ==> IsWhitespace(text[n]))
    ensures forall i :: 0 <= i < n ==> !IsWhitespace(text[i])
  {
    if text == "" || IsWhitespace(text[0]) then 0 else 1 + WordEnd(text[1..])
  }

  predicate IsWord(word: string) {
    word != "" && forall i :: 0 <= i < |word| ==> !IsWhitespace(word[i])
  }

  /** `split_whitespace`. */
  function Words(text: string): (words: seq<string>)
    ensures forall i :: 0 <= i < |words| ==> IsWord(words[i])
    decreases |text|
  {
    if text == "" then []
    else if IsWhitespace(text[0]) then Words(text[1..])
    else
      var n := WordEnd(text);
      [text[..n]] + Words(text[n..])
  }

  function Join(words: seq<string>): string {
    if words == [] then "" else if |words| == 1 then words[0] else words[0] + " " + Join(words[1..])
  }

  /** `normalize_effective_line`. */
  function NormalizeLine(alphanumeric: char -> bool, line: string): Option<string> {
    var normalized := Join(Words(line));
    if Utf8Length(normalized) <= 3 then None
    else if !HasWordCharacter(alphanumeric, normalized) then None
    else Some(normalized)
  }

  predicate HasWordCharacter(alphanumeric: char -> bool, text: string) {
    exists i :: 0 <= i < |text| && (alphanumeric(text[i]) || text[i] == '_')
  }

  lemma {:induction false} WordEndAt(text: string, n: nat)
    requires n <= |text| && (n < |text| ==> IsWhitespace(text[n]))
    requires forall i :: 0 <= i < n ==> !IsWhitespace(text[i])
    ensures WordEnd(text) == n
  {
    if n > 0 { WordEndAt(text[1..], n - 1); }
  }

  /** Splitting joined words gives the words back. */
  lemma {:induction false} WordsOfJoin(words: seq<string>)
    requires forall i :: 0 <= i < |words| ==> IsWord(words[i])
    ensures Words(Join(words)) == words
  {
    if words != [] {
      var word, rest := words[0], words[1..];
      var tail := if rest == [] then "" else " " + Join(rest);
      assert Join(words) == word + tail;
      WordEndAt(word + tail, |word|);
      assert (word + tail)[..|word|] == word && (word + tail)[|word|..] == tail;
      WordsOfJoin(rest);
      if rest != [] { assert tail[1..] == Join(rest); }
      assert words == [word] + rest;
    }
  }

  /** Normalising twice is normalising once. */
  lemma NormalizeLineIdempotent(alphanumeric: char -> bool, line: string)
    ensures var once := NormalizeLine(alphanumeric, line);
            once.Some? ==> NormalizeLine(alphanumeric, once.value) == once
  {
    WordsOfJoin(Words(line));
  }

  /** The characters of a text that are not whitespace, in order. */
  function NonBlank(text: string): string {
    if text == "" then "" else (if IsWhitespace(text[0]) then "" else [text[0]]) + NonBlank(text[1..])
  }

  function Concat(words: seq<string>): string {
    if words == [] then "" else words[0] + Concat(words[1..])
  }

  lemma {:induction false} NonBlankWord(word: string, rest: string)
    requires forall i :: 0 <= i < |word| ==> !IsWhitespace(word[i])
    ensures NonBlank(word + rest) == word + NonBlank(rest)
  {
    if word == "" {
      assert word + rest == rest;
    } else {
      assert (word + rest)[1..] == word[1..] + rest;
      NonBlankWord(word[1..], rest);
    }
  }

  /** Splitting loses whitespace only. */
  lemma {:induction false} WordsKeepNonBlanks(text: string)
    ensures Concat(Words(text)) == NonBlank(text)
    decreases |text|
  {
    if text != "" {
      if IsWhitespace(text[0]) {
        WordsKeepNonBlanks(text[1..]);
      } else {
        var n := WordEnd(text);
        NonBlankWord(text[..n], text[n..]);
        assert text == text[..n] + text[n..];
        WordsKeepNonBlanks(text[n..]);
      }
    }
  }

  lemma {:induction false} Utf8Concat(a: string, b: string)
    ensures Utf8Length(a + b) == Utf8Length(a) + Utf8Length(b)
  {
    if a == "" {
      assert a + b == b;
    } else {
      assert (a + b)[1..] == a[1..] + b;
      Utf8Concat(a[1..], b);
    }
  }

  lemma WordCharacterConcat(alphanumeric: char -> bool, a: string, b: string)
    ensures HasWordCharacter(alphanumeric, a + b) <==>
            HasWordCharacter(alphanumeric, a) || HasWordCharacter(alphanumeric, b)
  {
    if i :| 0 <= i < |a| && (alphanumeric(a[i]) || a[i] == '_') { assert (a + b)[i] == a[i]; }
    if i :| 0 <= i < |b| && (alphanumeric(b[i]) || b[i] == '_') { assert (a + b)[|a| + i] == b[i]; }
  }

  /** The spaces put between words. */
  function Gaps(words: seq<string>): nat {
    if words == [] then 0 else |words| - 1
  }

  lemma {:induction false} JoinMeasures(alphanumeric: char -> bool, words: seq<string>)
    ensures Utf8Length(Join(words)) == Utf8Length(Concat(words)) + Gaps(words)
    ensures HasWordCharacter(alphanumeric, Join(words)) <==>
            HasWordCharacter(alphanumeric, Concat(words)) || (Gaps(words) > 0 && alphanumeric(' '))
  {
    hide HasWordCharacter;
    if |words| == 1 {
      assert words[1..] == [] && Concat(words) == words[0] + "" == words[0];
    } else if words != [] {
      var first, rest := words[0], words[1..];
      JoinMeasures(alphanumeric, rest);
      Utf8Concat(first + " ", Join(rest));
      Utf8Concat(first, " ");
      Utf8Concat(first, Concat(rest));
      WordCharacterConcat(alphanumeric, first + " ", Join(rest));
      WordCharacterConcat(alphanumeric, first, " ");
      WordCharacterConcat(alphanumeric, first, Concat(rest));
      SpaceMeasures(alphanumeric);
    }
  }

  lemma SpaceMeasures(alphanumeric: char -> bool)
    ensures Utf8Length(" ") == 1 && (HasWordCharacter(alphanumeric, " ") <==> alphanumeric(' '))
  {
  }

  /** What normalisation keeps: the same words and the same non-blank characters, one space apart;
      and for which lines: those whose non-blank characters and single spaces are longer than three
      bytes and include a word character. */
  lemma {:induction false} NormalizeLineKeepsWords(alphanumeric: char -> bool, line: string)
    ensures var r := NormalizeLine(alphanumeric, line);
            r.Some? ==> Words(r.value) == Words(line) && NonBlank(r.value) == NonBlank(line)
                        && r.value == Join(Words(r.value))
    ensures var kept, gaps := NonBlank(line), Gaps(Words(line));
            NormalizeLine(alphanumeric, line).Some? <==>
            && Utf8Length(kept) + gaps > 3
            && (HasWordCharacter(alphanumeric, kept) || (gaps > 0 && alphanumeric(' ')))
  {
    hide Words, Join, NonBlank, Utf8Length, HasWordCharacter;
    WordsOfJoin(Words(line));
    WordsKeepNonBlanks(line);
    WordsKeepNonBlanks(Join(Words(line)));
    JoinMeasures(alphanumeric, Words(line));
  }

  lemma {:induction false} WordsIgnoreTrailing(text: string, c: char)
    requires IsWhitespace(c)
    ensures Words(text + [c]) == Words(text)
    decreases |text|
  {
    var longer := text + [c];
    if text == "" {
      assert longer[1..] == "";
    } else if IsWhitespace(text[0]) {
      assert longer[1..] == text[1..] + [c];
      WordsIgnoreTrailing(text[1..], c);
    } else {
      var n := WordEnd(text);
      WordEndAt(longer, n);
      assert longer[..n] == text[..n] && longer[n..] == text[n..] + [c];
      WordsIgnoreTrailing(text[n..], c);
    }
  }

  lemma NormalizeIgnoresCarriageReturn(alphanumeric: char -> bool, line: string)
    ensures NormalizeLine(alphanumeric, DropCarriageReturn(line)) == NormalizeLine(alphanumeric, line)
  {
    if line != "" && line[|line| - 1] == '\r' {
      assert line == line[..|line| - 1] + ['\r'];
      WordsIgnoreTrailing(line[..|line| - 1], '\r');
    }
  }

  // ---- Paths ----

  function TrimEnd(text: string): string {
    if text != "" && IsWhitespace(text[|text| - 1]) then TrimEnd(text[..|text| - 1]) else text
  }

  function TrimStart(text: string): string {
    if text != "" && IsWhitespace(text[0]) then TrimStart(text[1..]) else text
  }

  /** `normalize_diff_path`. */
  function NormalizePath(path: string): Option<string> {
    var trimmed := TrimStart(TrimEnd(path));
    if trimmed == "/dev/null" then None
    else if "b/" <= trimmed || "a/" <= trimmed then Some(trimmed[2..])
    else Some(trimmed)
  }

  predicate Trimmed(text: string) {
    text != "" && !IsWhitespace(text[0]) && !IsWhitespace(text[|text| - 1])
  }

  lemma {:induction false} TrimPadding(before: string, text: string, after: string)
    requires Trimmed(text)
    requires forall i :: 0 <= i < |before| ==> IsWhitespace(before[i])
    requires forall i :: 0 <= i < |after| ==> IsWhitespace(after[i])
    ensures TrimStart(TrimEnd(before + text + after)) == text
  {
    TrimAfter(before + text, after);
    TrimBefore(before, text);
  }

  lemma {:induction false} TrimAfter(text: string, after: string)
    requires text != "" && !IsWhitespace(text[|text| - 1])
    requires forall i :: 0 <= i < |after| ==> IsWhitespace(after[i])
    ensures TrimEnd(text + after) == text
  {
    if after == "" {
      assert text + after == text;
    } else {
      assert (text + after)[..|text + after| - 1] == text + after[..|after| - 1];
      TrimAfter(text, after[..|after| - 1]);
    }
  }

  lemma {:induction false} TrimBefore(before: string, text: string)
    requires text != "" && !IsWhitespace(text[0])
    requires forall i :: 0 <= i < |before| ==> IsWhitespace(before[i])
    ensures TrimStart(before + text) == text
  {
    if before == "" {
      assert before + text == text;
    } else {
      assert (before + text)[1..] == before[1..] + text;
      TrimBefore(before[1..], text);
    }
  }

  /** The path of a `+++` line, whatever blanks surround it: the `a/` and `b/` sides of a file
      have one name, and a deleted file has none. */
  lemma {:induction false} NormalizePathNames(before: string, name: string, after: string)
    requires Trimmed(name)
    requires forall i :: 0 <= i < |before| ==> IsWhitespace(before[i])
    requires forall i :: 0 <= i < |after| ==> IsWhitespace(after[i])
    ensures NormalizePath(before + "b/" + name + after) == Some(name)
    ensures NormalizePath(before + "a/" + name + after) == Some(name)
    ensures NormalizePath(before + "/dev/null" + after) == None
    ensures name != "/dev/null" && !("a/" <= name) && !("b/" <= name) ==>
              NormalizePath(before + name + after) == Some(name)
  {
    hide TrimStart, TrimEnd;
    TrimPadding(before, "b/" + name, after);
    TrimPadding(before, "a/" + name, after);
    TrimPadding(before, "/dev/null", after);
    TrimPadding(before, name, after);
    assert before + "b/" + name + after == before + ("b/" + name) + after;
    assert before + "a/" + name + after == before + ("a/" + name) + after;
    assert ("b/" + name)[2..] == name && ("a/" + name)[2..] == name;
    assert ("b/" + name)[0] == 'b' && ("a/" + name)[0] == 'a' && "/dev/null"[0] == '/';
  }

  // ---- The scanner ----

  datatype Summary = Summary(added: nat, deleted: nat, fingerprints: seq<(string, string)>)

  datatype Scan = Scan(path: Option<string>, inHunk: bool, summary: Summary)

  const EMPTY := Summary(0, 0, [])

  function Fingerprint(alphanumeric: char -> bool, path: Option<string>, line: string): seq<(string, string)> {
    var normalized := NormalizeLine(alphanumeric, line);
    if path.Some? && normalized.Some? then [(path.value, normalized.value)] else []
  }

  function ScanLine(alphanumeric: char -> bool, scan: Scan, line: string): Scan {
    var Scan(path, inHunk, Summary(added, deleted, found)) := scan;
    if "diff --git " <= line then Scan(None, false, scan.summary)
    else if "@@ " <= line then scan.(inHunk := true)
    else if !inHunk && "+++ " <= line then scan.(path := NormalizePath(line[4..]))
    else if !inHunk && "--- " <= line then scan
    else if "+" <= line then
      scan.(summary := Summary(added + 1, deleted, found + Fingerprint(alphanumeric, path, line[1..])))
    else if "-" <= line then scan.(summary := Summary(added, deleted + 1, found))
    else scan
  }

  function ScanLines(alphanumeric: char -> bool, scan: Scan, lines: seq<string>): Scan
    decreases lines
  {
    if lines == [] then scan else ScanLines(alphanumeric, ScanLine(alphanumeric, scan, lines[0]), lines[1..])
  }

  function ScanDiff(alphanumeric: char -> bool, diff: string): Summary {
    ScanLines(alphanumeric, Scan(None, false, EMPTY), Lines(diff)).summary
  }

  /** `accepted_line_fingerprints_from_unified_diff`. */
  method AcceptedLineFingerprints(alphanumeric: char -> bool, diff: string) returns (summary: Summary)
    ensures summary == ScanDiff(alphanumeric, diff)
  {
    var currentPath: Option<string>, inHunk := None, false;
    var added, deleted, fingerprints: seq<(string, string)> := 0, 0, [];
    var lines := Lines(diff);
    var i := 0;
    while i < |lines|
      invariant 0 <= i <= |lines|
      invariant var scan := Scan(currentPath, inHunk, Summary(added, deleted, fingerprints));
                ScanLines(alphanumeric, scan, lines[i..]).summary == ScanDiff(alphanumeric, diff)
    {
      var line := lines[i];
      assert lines[i..][1..] == lines[i + 1..];
      i := i + 1;
      if "diff --git " <= line {
        currentPath, inHunk := None, false;
        continue;
      }
      if "@@ " <= line {
        inHunk := true;
        continue;
      }
      if !inHunk && "+++ " <= line {
        currentPath := NormalizePath(line[4..]);
        continue;
      }
      if !inHunk && "--- " <= line {
        continue;
      }
      if "+" <= line {
        added := added + 1;
        var normalized := NormalizeLine(alphanumeric, line[1..]);
        if currentPath.Some? && normalized.Some? {
          fingerprints := fingerprints + [(currentPath.value, normalized.value)];
        } else {
          assert fingerprints + [] == fingerprints;
        }
        continue;
      }
      if "-" <= line {
        deleted := deleted + 1;
      }
    }
    summary := Summary(added, deleted, fingerprints);
  }

  lemma {:induction false} ScanConcat(alphanumeric: char -> bool, scan: Scan, a: seq<string>, b: seq<string>)
    ensures ScanLines(alphanumeric, scan, a + b) == ScanLines(alphanumeric, ScanLines(alphanumeric, scan, a), b)
    decreases a
  {
    if a == [] {
      assert a + b == b;
    } else {
      assert (a + b)[1..] == a[1..] + b;
      ScanConcat(alphanumeric, ScanLine(alphanumeric, scan, a[0]), a[1..], b);
    }
  }

  // ---- Any text, line by line ----

  /** A hunk was opened above line `i`, with no `diff --git ` line in between. */
  predicate InHunk(lines: seq<string>, i: nat)
    requires i <= |lines|
  {
    exists j :: 0 <= j < i && "@@ " <= lines[j] && !("diff --git " <= lines[j])
                && forall k :: j < k < i ==> !("diff --git " <= lines[k])
  }

  predicate IsAdded(lines: seq<string>, i: nat)
    requires i < |lines|
  {
    "+" <= lines[i] && (InHunk(lines, i) || !("+++ " <= lines[i]))
  }

  predicate IsDeleted(lines: seq<string>, i: nat)
    requires i < |lines|
  {
    "-" <= lines[i] && (InHunk(lines, i) || !("--- " <= lines[i]))
  }

  /** The file line `i` belongs to: named by the last `+++ ` line outside a hunk since the last
      `diff --git ` line. */
  function PathAt(lines: seq<string>, i: nat): Option<string>
    requires i <= |lines|
  {
    if i == 0 || "diff --git " <= lines[i - 1] then None
    else if "+++ " <= lines[i - 1] && !InHunk(lines, i - 1) then NormalizePath(lines[i - 1][4..])
    else PathAt(lines, i - 1)
  }

  /** What the first `n` lines of a text amount to. */
  function Tally(alphanumeric: char -> bool, lines: seq<string>, n: nat): Summary
    requires n <= |lines|
  {
    if n == 0 then EMPTY
    else
      var before, path := Tally(alphanumeric, lines, n - 1), PathAt(lines, n - 1);
      if IsAdded(lines, n - 1) then
        var line := NormalizeLine(alphanumeric, lines[n - 1][1..]);
        Summary(before.added + 1, before.deleted,
                if path.None? || line.None? then before.fingerprints
                else before.fingerprints + [(path.value, line.value)])
      else if IsDeleted(lines, n - 1) then before.(deleted := before.deleted + 1)
      else before
  }

  lemma {:induction false} InHunkNext(lines: seq<string>, i: nat)
    requires i < |lines|
    ensures InHunk(lines, i + 1) <==> !("diff --git " <= lines[i]) && ("@@ " <= lines[i] || InHunk(lines, i))
  {
  }

  lemma FirstCharacter(line: string)
    ensures ("diff --git " <= line ==> !("+" <= line) && !("-" <= line) && !("@@ " <= line))
    ensures ("@@ " <= line ==> !("+" <= line) && !("-" <= line))
    ensures ("+++ " <= line ==> "+" <= line) && ("--- " <= line ==> "-" <= line)
    ensures ("+" <= line ==> !("-" <= line))
  {
    if "diff --git " <= line { assert line[0] == "diff --git "[0]; }
    if "@@ " <= line { assert line[0] == "@@ "[0]; }
    if "+++ " <= line { assert line[0] == "+++ "[0]; }
    if "--- " <= line { assert line[0] == "--- "[0]; }
    if "+" <= line { assert line[0] == "+"[0]; }
    if "-" <= line { assert line[0] == "-"[0]; }
  }

  function ScanAt(alphanumeric: char -> bool, lines: seq<string>, i: nat): Scan
    requires i <= |lines|
  {
    Scan(PathAt(lines, i), InHunk(lines, i), Tally(alphanumeric, lines, i))
  }

  lemma {:induction false} TallyStep(alphanumeric: char -> bool, lines: seq<string>, i: nat)
    requires i < |lines|
    ensures ScanLine(alphanumeric, ScanAt(alphanumeric, lines, i), lines[i]) == ScanAt(alphanumeric, lines, i + 1)
  {
    hide InHunk, NormalizeLine, NormalizePath;
    InHunkNext(lines, i);
    FirstCharacter(lines[i]);
    var found := Tally(alphanumeric, lines, i).fingerprints;
    assert found + [] == found;
  }

  lemma {:induction false} TallyFrom(alphanumeric: char -> bool, lines: seq<string>, i: nat)
    requires i <= |lines|
    ensures ScanLines(alphanumeric, ScanAt(alphanumeric, lines, i), lines[i..]) == ScanAt(alphanumeric, lines, |lines|)
    decreases |lines| - i
  {
    hide ScanAt, ScanLine;
    if i < |lines| {
      TallyStep(alphanumeric, lines, i);
      assert lines[i..][1..] == lines[i + 1..];
      TallyFrom(alphanumeric, lines, i + 1);
    }
  }

  /** The scan of any text at all: added are the `+` lines, except `+++ ` lines outside a hunk,
      deleted likewise, and each effective added line is filed under the path named above it. */
  lemma {:induction false} ScanAnyText(alphanumeric: char -> bool, text: string)
    ensures ScanDiff(alphanumeric, text) == Tally(alphanumeric, Lines(text), |Lines(text)|)
  {
    hide Lines, ScanLines;
    var lines := Lines(text);
    TallyFrom(alphanumeric, lines, 0);
    assert lines[0..] == lines && !InHunk(lines, 0);
  }

  // ---- Git diffs as data ----

  datatype BodyLine = Unchanged(text: string) | Added(text: string) | Removed(text: string) | NoNewline(text: string)
  datatype Hunk = Hunk(range: string, body: seq<BodyLine>)
  datatype FilePaths = FilePaths(before: string, after: string)

  /** The part of a diff about one file. `title` is what follows `diff --git `, which only git
      writes; `extended` are the index, mode and rename lines. */
  datatype Section = Section(title: Option<string>, extended: seq<string>, paths: Option<FilePaths>, hunks: seq<Hunk>)

  function BodyText(line: BodyLine): string {
    match line
    case Unchanged(text) => " " + text
    case Added(text) => "+" + text
    case Removed(text) => "-" + text
    case NoNewline(text) => "\\" + text
  }

  function BodyLines(body: seq<BodyLine>): seq<string> {
    if body == [] then [] else [BodyText(body[0])] + BodyLines(body[1..])
  }

  function HunkLines(hunks: seq<Hunk>): seq<string> {
    if hunks == [] then [] else ["@@ " + hunks[0].range] + BodyLines(hunks[0].body) + HunkLines(hunks[1..])
  }

  function PathLines(paths: Option<FilePaths>): seq<string> {
    if paths.None? then [] else ["--- " + paths.value.before, "+++ " + paths.value.after]
  }

  function TitleLines(title: Option<string>): seq<string> {
    if title.None? then [] else ["diff --git " + title.value]
  }

  function SectionLines(section: Section): seq<string> {
    TitleLines(section.title) + section.extended + PathLines(section.paths) + HunkLines(section.hunks)
  }

  function DiffLines(diff: seq<Section>): seq<string> {
    if diff == [] then [] else SectionLines(diff[0]) + DiffLines(diff[1..])
  }

  predicate OneLine(text: string) {
    '\n' !in text
  }

  /** An extended header line: not a hunk start and not a `+` or `-` line. */
  predicate ExtendedHeader(line: string) {
    && OneLine(line)
    && !("@@ " <= line) && !("+" <= line) && !("-" <= line)
  }

  predicate HunkOk(hunk: Hunk) {
    OneLine(hunk.range) && forall i :: 0 <= i < |hunk.body| ==> OneLine(hunk.body[i].text)
  }

  predicate SectionOk(section: Section) {
    && (section.title.Some? ==> OneLine(section.title.value))
    && (forall i :: 0 <= i < |section.extended| ==> ExtendedHeader(section.extended[i]))
    && (section.paths.Some? ==> OneLine(section.paths.value.before) && OneLine(section.paths.value.after))
    && (forall i :: 0 <= i < |section.hunks| ==> HunkOk(section.hunks[i]))
  }

  predicate DiffOk(diff: seq<Section>) {
    forall i :: 0 <= i < |diff| ==> SectionOk(diff[i])
  }

  // ---- What the diff truly contains ----

  function Plus(a: Summary, b: Summary): Summary {
    Summary(a.added + b.added, a.deleted + b.deleted, a.fingerprints + b.fingerprints)
  }

  function LineTruth(alphanumeric: char -> bool, path: Option<string>, line: BodyLine): Summary {
    match line
    case Added(text) =>
      var normalized := NormalizeLine(alphanumeric, text);
      Summary(1, 0, if path.None? || normalized.None? then [] else [(path.value, normalized.value)])
    case Removed(_) => Summary(0, 1, [])
    case Unchanged(_) => EMPTY
    case NoNewline(_) => EMPTY
  }

  function BodyTruth(alphanumeric: char -> bool, path: Option<string>, body: seq<BodyLine>): Summary {
    if body == [] then EMPTY
    else Plus(LineTruth(alphanumeric, path, body[0]), BodyTruth(alphanumeric, path, body[1..]))
  }

  function HunkTruth(alphanumeric: char -> bool, path: Option<string>, hunks: seq<Hunk>): Summary {
    if hunks == [] then EMPTY
    else Plus(BodyTruth(alphanumeric, path, hunks[0].body), HunkTruth(alphanumeric, path, hunks[1..]))
  }

  function PathOf(paths: Option<FilePaths>): Option<string> {
    if paths.None? then None else NormalizePath(paths.value.after)
  }

  function SectionTruth(alphanumeric: char -> bool, section: Section): Summary {
    HunkTruth(alphanumeric, PathOf(section.paths), section.hunks)
  }

  function DiffTruth(alphanumeric: char -> bool, diff: seq<Section>): Summary {
    if diff == [] then EMPTY
    else Plus(SectionTruth(alphanumeric, diff[0]), DiffTruth(alphanumeric, diff[1..]))
  }

  // ---- Sections that are misread ----

  /** A `diff --git ` line at the head of the section takes the scanner out of the last hunk. */
  predicate Resets(section: Section) {
    section.title.Some? || HasTitle(section.extended)
  }

  predicate HasTitle(lines: seq<string>) {
    exists i :: 0 <= i < |lines| && "diff --git " <= lines[i]
  }

  /** No section after the last hunk before section `i` opens with a `diff --git ` line. */
  predicate FollowsHunk(diff: seq<Section>, i: nat)
    requires i <= |diff|
  {
    exists j :: 0 <= j < i && diff[j].hunks != [] && forall k :: j < k < i ==> !Resets(diff[k])
  }

  /** An untitled section whose path lines come straight after a hunk. */
  predicate Misplaced(diff: seq<Section>, i: nat)
    requires i < |diff|
  {
    diff[i].paths.Some? && !Resets(diff[i]) && FollowsHunk(diff, i)
  }

  function MisplacedCount(diff: seq<Section>, n: nat): nat
    requires n <= |diff|
  {
    if n == 0 then 0 else MisplacedCount(diff, n - 1) + if Misplaced(diff, n - 1) then 1 else 0
  }

  /** The section says which file its hunks belong to, or that it has no name. */
  predicate NamesItsFile(section: Section) {
    section.hunks == [] || section.paths.Some? || Resets(section)
  }

  predicate WellPlaced(diff: seq<Section>, n: nat)
    requires n <= |diff|
  {
    forall i :: 0 <= i < n ==> !Misplaced(diff, i) && NamesItsFile(diff[i])
  }

  // ---- Scanning what was printed finds the truth ----

  lemma PlusLaws(a: Summary, b: Summary, c: Summary)
    ensures Plus(Plus(a, b), c) == Plus(a, Plus(b, c)) && Plus(a, EMPTY) == a && Plus(EMPTY, a) == a
  {
  }

  lemma {:induction false} ChompedConcat(a: seq<string>, b: seq<string>)
    ensures Chomped(a + b) == Chomped(a) + Chomped(b)
  {
    if a == [] {
      assert a + b == b;
    } else {
      assert (a + b)[1..] == a[1..] + b;
      ChompedConcat(a[1..], b);
    }
  }

  lemma ChompPrefix(prefix: string, text: string)
    requires prefix != "" && prefix[|prefix| - 1] != '\r'
    ensures DropCarriageReturn(prefix + text) == prefix + DropCarriageReturn(text)
  {
  }

  /** A line that starts with another character does not have the prefix. */
  lemma NotHeader(prefix: string, line: string)
    requires prefix != "" && line != "" && prefix[0] != line[0]
    ensures !(prefix <= line)
  {
  }

  lemma ScanAddedLine(alphanumeric: char -> bool, scan: Scan, text: string)
    requires scan.inHunk
    ensures ScanLine(alphanumeric, scan, "+" + text) ==
            scan.(summary := Plus(scan.summary, Summary(1, 0, Fingerprint(alphanumeric, scan.path, text))))
  {
    NotHeader("diff --git ", "+" + text);
    NotHeader("@@ ", "+" + text);
    assert ("+" + text)[1..] == text;
  }

  lemma ScanRemovedLine(alphanumeric: char -> bool, scan: Scan, text: string)
    requires scan.inHunk
    ensures ScanLine(alphanumeric, scan, "-" + text) == scan.(summary := Plus(scan.summary, Summary(0, 1, [])))
  {
    NotHeader("diff --git ", "-" + text);
    NotHeader("@@ ", "-" + text);
    NotHeader("+", "-" + text);
  }

  lemma ScanBodyLine(alphanumeric: char -> bool, scan: Scan, line: BodyLine)
    requires scan.inHunk
    ensures ScanLine(alphanumeric, scan, DropCarriageReturn(BodyText(line))) ==
            scan.(summary := Plus(scan.summary, LineTruth(alphanumeric, scan.path, line)))
  {
    var text := DropCarriageReturn(line.text);
    PlusLaws(scan.summary, EMPTY, EMPTY);
    match line
    case Unchanged(_) =>
      ChompPrefix(" ", line.text);
      ScanQuietLine(alphanumeric, scan, " " + text);
    case NoNewline(_) =>
      ChompPrefix("\\", line.text);
      ScanQuietLine(alphanumeric, scan, "\\" + text);
    case Removed(_) =>
      ChompPrefix("-", line.text);
      ScanRemovedLine(alphanumeric, scan, text);
    case Added(_) =>
      ChompPrefix("+", line.text);
      ScanAddedLine(alphanumeric, scan, text);
      NormalizeIgnoresCarriageReturn(alphanumeric, line.text);
  }

  lemma ScanQuietLine(alphanumeric: char -> bool, scan: Scan, line: string)
    requires line != "" && (line[0] == ' ' || line[0] == '\\')
    ensures ScanLine(alphanumeric, scan, line) == scan
  {
    NotHeader("diff --git ", line);
    NotHeader("@@ ", line);
    NotHeader("+++ ", line);
    NotHeader("--- ", line);
    NotHeader("+", line);
    NotHeader("-", line);
  }

  lemma {:induction false} ScanBody(alphanumeric: char -> bool, scan: Scan, body: seq<BodyLine>)
    requires scan.inHunk
    ensures ScanLines(alphanumeric, scan, Chomped(BodyLines(body))) ==
            scan.(summary := Plus(scan.summary, BodyTruth(alphanumeric, scan.path, body)))
    decreases body
  {
    if body == [] {
      PlusLaws(scan.summary, EMPTY, EMPTY);
    } else {
      ScanBodyLine(alphanumeric, scan, body[0]);
      var first, rest := LineTruth(alphanumeric, scan.path, body[0]), BodyTruth(alphanumeric, scan.path, body[1..]);
      ScanBody(alphanumeric, scan.(summary := Plus(scan.summary, first)), body[1..]);
      PlusLaws(scan.summary, first, rest);
    }
  }

  lemma {:induction false} ScanHunks(alphanumeric: char -> bool, scan: Scan, hunks: seq<Hunk>)
    ensures var end := ScanLines(alphanumeric, scan, Chomped(HunkLines(hunks)));
            end == Scan(scan.path, scan.inHunk || hunks != [],
                        Plus(scan.summary, HunkTruth(alphanumeric, scan.path, hunks)))
    decreases hunks
  {
    if hunks == [] {
      PlusLaws(scan.summary, EMPTY, EMPTY);
    } else {
      var hunk := hunks[0];
      var header, body, rest := ["@@ " + hunk.range], BodyLines(hunk.body), HunkLines(hunks[1..]);
      ChompPrefix("@@ ", hunk.range);
      ChompedConcat(header + body, rest);
      ChompedConcat(header, body);
      ScanConcat(alphanumeric, scan, Chomped(header) + Chomped(body), Chomped(rest));
      ScanConcat(alphanumeric, scan, Chomped(header), Chomped(body));
      var started := scan.(inHunk := true);
      ScanOne(alphanumeric, scan, Chomped(header));
      NotHeader("diff --git ", Chomped(header)[0]);
      assert ScanLines(alphanumeric, scan, Chomped(header)) == started;
      ScanBody(alphanumeric, started, hunk.body);
      var truth := BodyTruth(alphanumeric, scan.path, hunk.body);
      ScanHunks(alphanumeric, started.(summary := Plus(scan.summary, truth)), hunks[1..]);
      PlusLaws(scan.summary, truth, HunkTruth(alphanumeric, scan.path, hunks[1..]));
    }
  }

  lemma ScanOne(alphanumeric: char -> bool, scan: Scan, lines: seq<string>)
    requires |lines| == 1
    ensures ScanLines(alphanumeric, scan, lines) == ScanLine(alphanumeric, scan, lines[0])
  {
    assert lines[1..] == [];
  }

  lemma TitleSurvivesChomp(line: string)
    ensures "diff --git " <= DropCarriageReturn(line) <==> "diff --git " <= line
  {
  }

  function Reset(scan: Scan): Scan {
    Scan(None, false, scan.summary)
  }

  lemma {:induction false} ScanExtended(alphanumeric: char -> bool, scan: Scan, lines: seq<string>)
    requires forall i :: 0 <= i < |lines| ==> ExtendedHeader(lines[i])
    ensures ScanLines(alphanumeric, scan, Chomped(lines)) == if HasTitle(lines) then Reset(scan) else scan
    decreases lines
  {
    if lines != [] {
      var line := DropCarriageReturn(lines[0]);
      TitleSurvivesChomp(lines[0]);
      assert ExtendedHeader(lines[0]);
      assert !("@@ " <= line) && !("+" <= line) && !("-" <= line);
      assert ScanLine(alphanumeric, scan, line) == if "diff --git " <= lines[0] then Reset(scan) else scan;
      ScanExtended(alphanumeric, ScanLine(alphanumeric, scan, line), lines[1..]);
      assert HasTitle(lines) <==> "diff --git " <= lines[0] || HasTitle(lines[1..]) by { HasTitleCons(lines); }
    }
  }

  lemma HasTitleCons(lines: seq<string>)
    requires lines != []
    ensures HasTitle(lines) <==> "diff --git " <= lines[0] || HasTitle(lines[1..])
  {
    if i :| 0 <= i < |lines[1..]| && "diff --git " <= lines[1..][i] { assert "diff --git " <= lines[i + 1]; }
    if i :| 0 < i < |lines| && "diff --git " <= lines[i] { assert "diff --git " <= lines[1..][i - 1]; }
  }

  lemma ScanTitle(alphanumeric: char -> bool, scan: Scan, title: Option<string>)
    ensures ScanLines(alphanumeric, scan, Chomped(TitleLines(title))) == if title.Some? then Reset(scan) else scan
  {
    if title.Some? {
      ChompPrefix("diff --git ", title.value);
      ScanOne(alphanumeric, scan, Chomped(TitleLines(title)));
    }
  }

  /** Path lines name the file outside a hunk; inside one they are a removed and an added line. */
  function AfterPaths(alphanumeric: char -> bool, scan: Scan, paths: Option<FilePaths>): Scan {
    if paths.None? then scan
    else if scan.inHunk then
      var line := Fingerprint(alphanumeric, scan.path, "++ " + paths.value.after);
      scan.(summary := Plus(scan.summary, Summary(1, 1, line)))
    else scan.(path := PathOf(paths))
  }

  lemma ScanPathLines(alphanumeric: char -> bool, scan: Scan, before: string, after: string)
    ensures var end := ScanLine(alphanumeric, ScanLine(alphanumeric, scan, "--- " + before), "+++ " + after);
            var counted := Summary(1, 1, Fingerprint(alphanumeric, scan.path, "++ " + after));
            end == if scan.inHunk then scan.(summary := Plus(scan.summary, counted))
                   else scan.(path := NormalizePath(after))
  {
    var first, second := "--- " + before, "+++ " + after;
    NotHeader("diff --git ", first);
    NotHeader("@@ ", first);
    NotHeader("+++ ", first);
    NotHeader("+", first);
    NotHeader("diff --git ", second);
    NotHeader("@@ ", second);
    NotHeader("--- ", second);
    assert second[4..] == after && second[1..] == "++ " + after;
  }

  lemma PathLinesChomped(paths: FilePaths)
    ensures Chomped(PathLines(Some(paths))) ==
            ["--- " + DropCarriageReturn(paths.before), "+++ " + DropCarriageReturn(paths.after)]
  {
    hide DropCarriageReturn;
    ChompPrefix("--- ", paths.before);
    ChompPrefix("+++ ", paths.after);
    assert PathLines(Some(paths))[1..] == ["+++ " + paths.after];
  }

  lemma ScanTwo(alphanumeric: char -> bool, scan: Scan, first: string, second: string)
    ensures ScanLines(alphanumeric, scan, [first, second]) ==
            ScanLine(alphanumeric, ScanLine(alphanumeric, scan, first), second)
  {
    hide ScanLine;
    assert [first, second][1..] == [second];
    ScanOne(alphanumeric, ScanLine(alphanumeric, scan, first), [second]);
  }

  lemma PathIgnoresCarriageReturn(path: string)
    ensures NormalizePath(DropCarriageReturn(path)) == NormalizePath(path)
  {
  }

  lemma ScanPaths(alphanumeric: char -> bool, scan: Scan, paths: Option<FilePaths>)
    ensures ScanLines(alphanumeric, scan, Chomped(PathLines(paths))) == AfterPaths(alphanumeric, scan, paths)
  {
    hide ScanLine, NormalizeLine, NormalizePath, DropCarriageReturn;
    if paths.Some? {
      hide ScanLines, Chomped, PathLines;
      var before, after := DropCarriageReturn(paths.value.before), DropCarriageReturn(paths.value.after);
      PathLinesChomped(paths.value);
      ScanTwo(alphanumeric, scan, "--- " + before, "+++ " + after);
      ScanPathLines(alphanumeric, scan, before, after);
      ChompPrefix("++ ", paths.value.after);
      NormalizeIgnoresCarriageReturn(alphanumeric, "++ " + paths.value.after);
      PathIgnoresCarriageReturn(paths.value.after);
    }
  }

  function AfterSection(alphanumeric: char -> bool, scan: Scan, section: Section): Scan {
    var named := AfterPaths(alphanumeric, if Resets(section) then Reset(scan) else scan, section.paths);
    Scan(named.path, named.inHunk || section.hunks != [],
         Plus(named.summary, HunkTruth(alphanumeric, named.path, section.hunks)))
  }

  lemma {:induction false} ScanSection(alphanumeric: char -> bool, scan: Scan, section: Section)
    requires SectionOk(section)
    ensures ScanLines(alphanumeric, scan, Chomped(SectionLines(section))) == AfterSection(alphanumeric, scan, section)
  {
    hide Chomped, ScanLines, TitleLines, PathLines, HunkLines, AfterPaths, HunkTruth, HasTitle;
    var title, extended, paths, hunks :=
      TitleLines(section.title), section.extended, PathLines(section.paths), HunkLines(section.hunks);
    ChompedConcat(title + extended + paths, hunks);
    ChompedConcat(title + extended, paths);
    ChompedConcat(title, extended);
    ScanConcat(alphanumeric, scan, Chomped(title) + Chomped(extended) + Chomped(paths), Chomped(hunks));
    ScanConcat(alphanumeric, scan, Chomped(title) + Chomped(extended), Chomped(paths));
    ScanConcat(alphanumeric, scan, Chomped(title), Chomped(extended));
    ScanTitle(alphanumeric, scan, section.title);
    var titled := if section.title.Some? then Reset(scan) else scan;
    ScanExtended(alphanumeric, titled, extended);
    var begun := if Resets(section) then Reset(scan) else scan;
    ScanPaths(alphanumeric, begun, section.paths);
    ScanHunks(alphanumeric, AfterPaths(alphanumeric, begun, section.paths), section.hunks);
  }

  lemma {:induction false} DiffSnoc(alphanumeric: char -> bool, diff: seq<Section>, section: Section)
    ensures DiffLines(diff + [section]) == DiffLines(diff) + SectionLines(section)
    ensures DiffTruth(alphanumeric, diff + [section]) ==
            Plus(DiffTruth(alphanumeric, diff), SectionTruth(alphanumeric, section))
  {
    hide SectionLines, SectionTruth;
    if diff == [] {
      assert diff + [section] == [section] && [section][1..] == [];
      PlusLaws(SectionTruth(alphanumeric, section), EMPTY, EMPTY);
    } else {
      assert (diff + [section])[1..] == diff[1..] + [section];
      DiffSnoc(alphanumeric, diff[1..], section);
      var first, rest := SectionTruth(alphanumeric, diff[0]), DiffTruth(alphanumeric, diff[1..]);
      PlusLaws(first, rest, SectionTruth(alphanumeric, section));
    }
  }

  lemma FollowsHunkNext(diff: seq<Section>, n: nat)
    requires n < |diff|
    ensures FollowsHunk(diff, n + 1) <==> diff[n].hunks != [] || (FollowsHunk(diff, n) && !Resets(diff[n]))
  {
    hide Resets;
  }

  /** Counts do not depend on the path the lines are filed under. */
  lemma LineCounts(alphanumeric: char -> bool, p: Option<string>, q: Option<string>, line: BodyLine)
    ensures var a, b := LineTruth(alphanumeric, p, line), LineTruth(alphanumeric, q, line);
            a.added == b.added && a.deleted == b.deleted
  {
    hide NormalizeLine;
  }

  lemma {:induction false} BodyCounts(alphanumeric: char -> bool, p: Option<string>, q: Option<string>,
                                      body: seq<BodyLine>)
    ensures var a, b := BodyTruth(alphanumeric, p, body), BodyTruth(alphanumeric, q, body);
            a.added == b.added && a.deleted == b.deleted
  {
    hide LineTruth;
    if body != [] {
      LineCounts(alphanumeric, p, q, body[0]);
      BodyCounts(alphanumeric, p, q, body[1..]);
    }
  }

  lemma {:induction false} HunkCounts(alphanumeric: char -> bool, p: Option<string>, q: Option<string>,
                                      hunks: seq<Hunk>)
    ensures var a, b := HunkTruth(alphanumeric, p, hunks), HunkTruth(alphanumeric, q, hunks);
            a.added == b.added && a.deleted == b.deleted
  {
    if hunks != [] {
      BodyCounts(alphanumeric, p, q, hunks[0].body);
      HunkCounts(alphanumeric, p, q, hunks[1..]);
    }
  }

  /** After `n` sections: whether the scanner is in a hunk, how far its counts are off, and that
      nothing else is off when the sections are well placed. */
  ghost predicate Scanned(alphanumeric: char -> bool, diff: seq<Section>, n: nat, scan: Scan)
    requires n <= |diff|
  {
    var truth := DiffTruth(alphanumeric, diff[..n]);
    && scan.inHunk == FollowsHunk(diff, n)
    && scan.summary.added == truth.added + MisplacedCount(diff, n)
    && scan.summary.deleted == truth.deleted + MisplacedCount(diff, n)
    && (WellPlaced(diff, n) ==> scan.summary == truth)
  }

  lemma {:induction false} ScannedStep(alphanumeric: char -> bool, diff: seq<Section>, n: nat, scan: Scan)
    requires n < |diff| && Scanned(alphanumeric, diff, n, scan)
    ensures Scanned(alphanumeric, diff, n + 1, AfterSection(alphanumeric, scan, diff[n]))
  {
    hide FollowsHunk, Resets, HunkTruth, Fingerprint, DiffTruth;
    var section := diff[n];
    FollowsHunkNext(diff, n);
    assert diff[..n + 1] == diff[..n] + [section];
    DiffSnoc(alphanumeric, diff[..n], section);
    var begun := if Resets(section) then Reset(scan) else scan;
    var named := AfterPaths(alphanumeric, begun, section.paths);
    HunkCounts(alphanumeric, named.path, PathOf(section.paths), section.hunks);
    if WellPlaced(diff, n + 1) {
      assert !Misplaced(diff, n) && NamesItsFile(section);
      NoHunksNoTruth(alphanumeric, named.path, section.hunks);
      NoHunksNoTruth(alphanumeric, PathOf(section.paths), section.hunks);
    }
  }

  lemma NoHunksNoTruth(alphanumeric: char -> bool, path: Option<string>, hunks: seq<Hunk>)
    ensures hunks == [] ==> HunkTruth(alphanumeric, path, hunks) == EMPTY
  {
  }

  lemma {:induction false} ScanSections(alphanumeric: char -> bool, diff: seq<Section>, n: nat)
    requires DiffOk(diff) && n <= |diff|
    ensures Scanned(alphanumeric, diff, n,
                    ScanLines(alphanumeric, Scan(None, false, EMPTY), Chomped(DiffLines(diff[..n]))))
  {
    hide SectionOk, SectionLines, AfterSection;
    if n == 0 {
      assert diff[..0] == [];
    } else {
      hide DiffLines, Scanned, Chomped, ScanLines;
      var start, before, section := Scan(None, false, EMPTY), DiffLines(diff[..n - 1]), diff[n - 1];
      ScanSections(alphanumeric, diff, n - 1);
      assert diff[..n] == diff[..n - 1] + [section];
      DiffSnoc(alphanumeric, diff[..n - 1], section);
      ChompedConcat(before, SectionLines(section));
      ScanConcat(alphanumeric, start, Chomped(before), Chomped(SectionLines(section)));
      ScanSection(alphanumeric, ScanLines(alphanumeric, start, Chomped(before)), section);
      ScannedStep(alphanumeric, diff, n - 1, ScanLines(alphanumeric, start, Chomped(before)));
    }
  }

  lemma {:induction false} ScanPrinted(alphanumeric: char -> bool, diff: seq<Section>)
    requires DiffOk(diff)
    ensures exists scan :: Scanned(alphanumeric, diff, |diff|, scan)
                           && scan.summary == ScanDiff(alphanumeric, Print(DiffLines(diff)))
  {
    hide Scanned, DiffLines, Chomped, ScanLines, Lines, Print;
    DiffLinesOneLine(diff);
    LinesOfPrint(DiffLines(diff));
    ScanSections(alphanumeric, diff, |diff|);
    assert diff[..|diff|] == diff;
  }

  /** Scanner correctness: scanning the printed text of a diff gives its true added and deleted
      counts and, in order, the (path, normalised line) pairs of its effective added lines,
      whatever its body lines look like. Every section opens with a `diff --git ` line, as git
      writes them, or names its file without following a hunk. */
  lemma ScanFindsTruth(alphanumeric: char -> bool, diff: seq<Section>)
    requires DiffOk(diff) && (WellPlaced(diff, |diff|) || forall i :: 0 <= i < |diff| ==> diff[i].title.Some?)
    ensures ScanDiff(alphanumeric, Print(DiffLines(diff))) == DiffTruth(alphanumeric, diff)
  {
    hide DiffTruth, DiffLines, ScanDiff, FollowsHunk;
    ScanPrinted(alphanumeric, diff);
    assert diff[..|diff|] == diff;
  }

  lemma {:induction false} NoneMisplaced(diff: seq<Section>, n: nat)
    requires n <= |diff|
    ensures MisplacedCount(diff, n) == 0 <==> forall i :: 0 <= i < n ==> !Misplaced(diff, i)
  {
    hide Misplaced;
    if n > 0 { NoneMisplaced(diff, n - 1); }
  }

  /** The counts of any diff, titled or not: each misplaced section adds one to both, so they are
      the true ones if and only if no untitled section with path lines follows a hunk. */
  lemma CountsTrueIff(alphanumeric: char -> bool, diff: seq<Section>)
    requires DiffOk(diff)
    ensures var found, truth := ScanDiff(alphanumeric, Print(DiffLines(diff))), DiffTruth(alphanumeric, diff);
            && found.added == truth.added + MisplacedCount(diff, |diff|)
            && found.deleted == truth.deleted + MisplacedCount(diff, |diff|)
            && (found.added == truth.added && found.deleted == truth.deleted <==>
                forall i :: 0 <= i < |diff| ==> !Misplaced(diff, i))
  {
    hide DiffTruth, DiffLines, ScanDiff, Misplaced, WellPlaced;
    ScanPrinted(alphanumeric, diff);
    NoneMisplaced(diff, |diff|);
    assert diff[..|diff|] == diff;
  }

  /** A new file of one line, as `diff -u` prints it. */
  function Plain(name: string, line: string): Section {
    Section(None, [], Some(FilePaths("/dev/null", name)), [Hunk("-0,0 +1 @@", [Added(line)])])
  }

  function PlainText(name: string, line: string): seq<string> {
    ["--- /dev/null", "+++ " + name, "@@ -0,0 +1 @@", "+" + line]
  }

  lemma {:induction false} PlainSection(alphanumeric: char -> bool, name: string, line: string)
    ensures SectionLines(Plain(name, line)) == PlainText(name, line)
    ensures var truth := SectionTruth(alphanumeric, Plain(name, line)); truth.added == 1 && truth.deleted == 0
  {
    var hunk := Hunk("-0,0 +1 @@", [Added(line)]);
    assert [Added(line)][1..] == [] && [hunk][1..] == [];
    assert "@@ " + "-0,0 +1 @@" == "@@ -0,0 +1 @@" && "--- " + "/dev/null" == "--- /dev/null";
    assert BodyLines([Added(line)]) == ["+" + line];
    assert HunkLines([hunk]) == ["@@ -0,0 +1 @@"] + ["+" + line];
    assert BodyTruth(alphanumeric, PathOf(Plain(name, line).paths), [Added(line)]).added == 1;
    assert HunkTruth(alphanumeric, PathOf(Plain(name, line).paths), [hunk]).added == 1;
  }

  function TwoFiles(): seq<Section> {
    [Plain("a", "x"), Plain("b", "y")]
  }

  lemma {:induction false} TwoFilesTruth(alphanumeric: char -> bool)
    ensures DiffLines(TwoFiles()) == PlainText("a", "x") + PlainText("b", "y")
    ensures var truth := DiffTruth(alphanumeric, TwoFiles()); truth.added == 2 && truth.deleted == 0
  {
    hide SectionLines, SectionTruth, PlainText, Plain;
    var first, second := Plain("a", "x"), Plain("b", "y");
    PlainSection(alphanumeric, "a", "x");
    PlainSection(alphanumeric, "b", "y");
    DiffSnoc(alphanumeric, [], first);
    DiffSnoc(alphanumeric, [first], second);
    assert [] + [first] == [first] && [first] + [second] == TwoFiles();
  }

  lemma TwoFilesMisplaced()
    ensures DiffOk(TwoFiles()) && MisplacedCount(TwoFiles(), 2) == 1
  {
    var diff := TwoFiles();
    assert diff[0].hunks != [];
    assert !FollowsHunk(diff, 0) && FollowsHunk(diff, 1);
    assert Misplaced(diff, 1) && !Misplaced(diff, 0);
    assert MisplacedCount(diff, 1) == MisplacedCount(diff, 0) == 0;
  }

  /** Two new files without `diff --git ` lines: the second file's path lines are counted. */
  lemma {:induction false} UntitledDiffMiscounted(alphanumeric: char -> bool)
    ensures var text := Print(["--- /dev/null", "+++ a", "@@ -0,0 +1 @@", "+x",
                               "--- /dev/null", "+++ b", "@@ -0,0 +1 @@", "+y"]);
            var found, truth := ScanDiff(alphanumeric, text), DiffTruth(alphanumeric, TwoFiles());
            && text == Print(DiffLines(TwoFiles())) && found.added == 3 && found.deleted == 1
            && truth.added == 2 && truth.deleted == 0
  {
    hide ScanDiff, Print, DiffLines, DiffTruth, DiffOk, MisplacedCount;
    assert "+++ " + "a" == "+++ a" && "+++ " + "b" == "+++ b" && "+" + "x" == "+x" && "+" + "y" == "+y";
    assert PlainText("a", "x") == ["--- /dev/null", "+++ a", "@@ -0,0 +1 @@", "+x"];
    assert PlainText("b", "y") == ["--- /dev/null", "+++ b", "@@ -0,0 +1 @@", "+y"];
    TwoFilesTruth(alphanumeric);
    assert DiffLines(TwoFiles()) == ["--- /dev/null", "+++ a", "@@ -0,0 +1 @@", "+x",
                                     "--- /dev/null", "+++ b", "@@ -0,0 +1 @@", "+y"];
    TwoFilesMisplaced();
    CountsTrueIff(alphanumeric, TwoFiles());
  }

  predicate AllOneLine(lines: seq<string>) {
    forall i :: 0 <= i < |lines| ==> '\n' !in lines[i]
  }

  lemma {:induction false} BodyOneLine(body: seq<BodyLine>)
    requires forall i :: 0 <= i < |body| ==> OneLine(body[i].text)
    ensures AllOneLine(BodyLines(body))
  {
    if body != [] { BodyOneLine(body[1..]); }
  }

  lemma {:induction false} HunksOneLine(hunks: seq<Hunk>)
    requires forall i :: 0 <= i < |hunks| ==> HunkOk(hunks[i])
    ensures AllOneLine(HunkLines(hunks))
  {
    if hunks != [] {
      assert HunkOk(hunks[0]);
      BodyOneLine(hunks[0].body);
      HunksOneLine(hunks[1..]);
    }
  }

  lemma {:induction false} DiffLinesOneLine(diff: seq<Section>)
    requires DiffOk(diff)
    ensures AllOneLine(DiffLines(diff))
  {
    if diff != [] {
      assert SectionOk(diff[0]);
      HunksOneLine(diff[0].hunks);
      DiffLinesOneLine(diff[1..]);
    }
  }
}
