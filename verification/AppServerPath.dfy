/** Paths of the app-server host: joining a segment and listing components. */
module AppServerPath {
  import opened Protocol

  predicate IsAsciiLetter(c: char) {
    'a' <= c <= 'z' || 'A' <= c <= 'Z'
  }

  predicate HasDrive(path: string) {
    |path| >= 2 && IsAsciiLetter(path[0]) && path[1] == ':'
  }

  /** A drive root, or two leading separators of one kind. */
  predicate IsWindowsAbsolute(path: string) {
    || (|path| >= 3 && HasDrive(path) && (path[2] == '\\' || path[2] == '/'))
    || (|path| >= 2 && path[0] == '\\' && path[1] == '\\')
    || (|path| >= 2 && path[0] == '/' && path[1] == '/')
  }

  predicate IsSeparator(windows: bool, c: char) {
    c == '/' || (windows && c == '\\')
  }

  function FromAbsolute(raw: string): Option<string> {
    if (raw != "" && raw[0] == '/') || IsWindowsAbsolute(raw) then Some(raw) else None
  }

  /** `split(separators)` followed by dropping empty parts; `part` is the part being read. */
  function Split(windows: bool, text: string, part: string): seq<string>
    decreases text
  {
    if text == "" then (if part == "" then [] else [part])
    else if IsSeparator(windows, text[0]) then (if part == "" then [] else [part]) + Split(windows, text[1..], "")
    else Split(windows, text[1..], part + [text[0]])
  }

  function Components(path: string): seq<string> {
    Split(IsWindowsAbsolute(path), path, "")
  }

  function TrimEnd(windows: bool, path: string): string {
    if path != "" && IsSeparator(windows, path[|path| - 1]) then TrimEnd(windows, path[..|path| - 1]) else path
  }

  function Join(path: string, segment: string): string {
    var windows := IsWindowsAbsolute(path);
    TrimEnd(windows, path) + (if windows then "\\" else "/") + segment
  }

  predicate OnlySeparators(windows: bool, path: string) {
    forall i :: 0 <= i < |path| ==> IsSeparator(windows, path[i])
  }

  /** A segment that is one path component under the path's own rules. */
  predicate IsSegment(windows: bool, segment: string) {
    segment != "" && forall i :: 0 <= i < |segment| ==> !IsSeparator(windows, segment[i])
  }

  lemma {:induction false} SplitSegment(windows: bool, segment: string, part: string)
    requires forall i :: 0 <= i < |segment| ==> !IsSeparator(windows, segment[i])
    ensures Split(windows, segment, part) == if part + segment == "" then [] else [part + segment]
    decreases segment
  {
    if segment == "" {
      assert part + segment == part;
    } else {
      SplitSegment(windows, segment[1..], part + [segment[0]]);
      assert part + [segment[0]] + segment[1..] == part + segment;
    }
  }

  lemma {:induction false} SplitAtSeparator(windows: bool, text: string, separator: char, rest: string, part: string)
    requires IsSeparator(windows, separator)
    ensures Split(windows, text + [separator] + rest, part) == Split(windows, text, part) + Split(windows, rest, "")
    decreases text
  {
    var whole := text + [separator] + rest;
    if text == "" {
      assert whole[1..] == rest;
    } else {
      assert whole[0] == text[0] && whole[1..] == text[1..] + [separator] + rest;
      if IsSeparator(windows, text[0]) {
        SplitAtSeparator(windows, text[1..], separator, rest, "");
      } else {
        SplitAtSeparator(windows, text[1..], separator, rest, part + [text[0]]);
      }
    }
  }

  lemma {:induction false} SplitTrimmed(windows: bool, path: string)
    ensures Split(windows, TrimEnd(windows, path), "") == Split(windows, path, "")
  {
    if path != "" && IsSeparator(windows, path[|path| - 1]) {
      var shorter := path[..|path| - 1];
      SplitTrimmed(windows, shorter);
      SplitAtSeparator(windows, shorter, path[|path| - 1], "", "");
      assert path == shorter + [path[|path| - 1]] + "";
    }
  }

  lemma {:induction false} TrimEndPrefix(windows: bool, path: string)
    ensures TrimEnd(windows, path) <= path
    ensures var t := TrimEnd(windows, path); t != "" ==> !IsSeparator(windows, t[|t| - 1])
    ensures TrimEnd(windows, path) == "" <==> OnlySeparators(windows, path)
    ensures forall i :: |TrimEnd(windows, path)| <= i < |path| ==> IsSeparator(windows, path[i])
  {
    if path != "" && IsSeparator(windows, path[|path| - 1]) { TrimEndPrefix(windows, path[..|path| - 1]); }
  }

  function Concat(parts: seq<string>): string {
    if parts == [] then "" else parts[0] + Concat(parts[1..])
  }

  function WithoutSeparators(windows: bool, text: string): string {
    if text == "" then ""
    else (if IsSeparator(windows, text[0]) then "" else [text[0]]) + WithoutSeparators(windows, text[1..])
  }

  lemma {:induction false} ConcatCons(part: string, parts: seq<string>)
    ensures Concat((if part == "" then [] else [part]) + parts) == part + Concat(parts)
  {
    if part != "" { assert ([part] + parts)[1..] == parts; } else { assert [] + parts == parts; }
  }

  lemma {:induction false} SplitKeepsText(windows: bool, text: string, part: string)
    requires forall i :: 0 <= i < |part| ==> !IsSeparator(windows, part[i])
    ensures Concat(Split(windows, text, part)) == part + WithoutSeparators(windows, text)
    ensures forall i :: 0 <= i < |Split(windows, text, part)| ==> IsSegment(windows, Split(windows, text, part)[i])
    decreases text
  {
    if text == "" {
      ConcatCons(part, []);
      assert (if part == "" then [] else [part]) + [] == Split(windows, text, part);
    } else if IsSeparator(windows, text[0]) {
      SplitKeepsText(windows, text[1..], "");
      ConcatCons(part, Split(windows, text[1..], ""));
    } else {
      SplitKeepsText(windows, text[1..], part + [text[0]]);
      assert part + [text[0]] + WithoutSeparators(windows, text[1..]) == part + WithoutSeparators(windows, text);
    }
  }

  /** A Windows path starts with a drive and a separator, or with two separators of one kind; an
      absolute path is one of these or starts with a slash, and is kept as it is. */
  lemma {:induction false} AbsoluteIff(path: string)
    ensures IsWindowsAbsolute(path) <==>
            || "\\\\" <= path || "//" <= path
            || exists drive: char :: ('a' <= drive <= 'z' || 'A' <= drive <= 'Z')
                                     && ([drive] + ":\\" <= path || [drive] + ":/" <= path)
    ensures FromAbsolute(path) == if "/" <= path || IsWindowsAbsolute(path) then Some(path) else None
  {
    if |path| >= 3 && HasDrive(path) && path[2] == '\\' { assert [path[0]] + ":\\" <= path; }
    if |path| >= 3 && HasDrive(path) && path[2] == '/' { assert [path[0]] + ":/" <= path; }
    if drive: char :| ('a' <= drive <= 'z' || 'A' <= drive <= 'Z')
                      && ([drive] + ":\\" <= path || [drive] + ":/" <= path) {
      assert path[0] == drive && path[1] == ':';
      assert [drive] + ":\\" <= path ==> path[2] == ([drive] + ":\\")[2] == '\\';
      assert [drive] + ":/" <= path ==> path[2] == ([drive] + ":/")[2] == '/';
    }
    if "\\\\" <= path { assert path[0] == "\\\\"[0] && path[1] == "\\\\"[1]; }
    if "//" <= path { assert path[0] == "//"[0] && path[1] == "//"[1]; }
  }

  /** Listing components loses separators only, and every component is one: not empty, without a
      separator. Forward slashes separate always, backslashes in Windows paths only. */
  lemma {:induction false} ComponentsKeepText(path: string)
    ensures var parts, windows := Components(path), IsWindowsAbsolute(path);
            && Concat(parts) == WithoutSeparators(windows, path)
            && forall i :: 0 <= i < |parts| ==> IsSegment(windows, parts[i])
  {
    SplitKeepsText(IsWindowsAbsolute(path), path, "");
    assert "" + WithoutSeparators(IsWindowsAbsolute(path), path) == WithoutSeparators(IsWindowsAbsolute(path), path);
  }

  /** The two ways a join can change a path's class: a Windows root that is nothing but
      separators loses them all, and a bare drive becomes a drive root. */
  predicate ClassLost(path: string) {
    (IsWindowsAbsolute(path) && OnlySeparators(true, path)) || (|path| == 2 && HasDrive(path))
  }

  lemma {:induction false} JoinClass(path: string, segment: string)
    requires IsSegment(IsWindowsAbsolute(path), segment)
    ensures IsWindowsAbsolute(Join(path, segment)) == IsWindowsAbsolute(path) <==> !ClassLost(path)
  {
    var windows := IsWindowsAbsolute(path);
    TrimEndPrefix(windows, path);
    var trimmed, joined := TrimEnd(windows, path), Join(path, segment);
    assert joined[|trimmed|] == if windows then '\\' else '/';
    assert joined[|trimmed| + 1] == segment[0];
    assert forall i :: 0 <= i < |trimmed| ==> joined[i] == path[i];
  }

  /** Path algebra: joining a segment appends exactly that component and keeps the path's
      class, if and only if the path is neither a Windows root made only of separators nor a
      bare drive (which no absolute path is). */
  lemma {:induction false} JoinAppendsComponent(path: string, segment: string)
    requires IsSegment(IsWindowsAbsolute(path), segment)
    ensures (IsWindowsAbsolute(Join(path, segment)) == IsWindowsAbsolute(path)
             && Components(Join(path, segment)) == Components(path) + [segment]) <==> !ClassLost(path)
    ensures FromAbsolute(path).Some? && !ClassLost(path) ==>
              FromAbsolute(Join(path, segment)) == Some(Join(path, segment))
  {
    hide ClassLost, Split;
    JoinClass(path, segment);
    var windows := IsWindowsAbsolute(path);
    var separator := if windows then '\\' else '/';
    TrimEndPrefix(windows, path);
    if !ClassLost(path) {
      SplitAtSeparator(windows, TrimEnd(windows, path), separator, segment, "");
      SplitTrimmed(windows, path);
      SplitSegment(windows, segment, "");
      assert "" + segment == segment;
      assert Join(path, segment) == TrimEnd(windows, path) + [separator] + segment;
    }
  }

  /** The path that loses its class: `\\` joined with `x` is no longer a Windows path. */
  lemma SeparatorRootLosesClass()
    ensures var root := "\\\\";
            IsWindowsAbsolute(root) && Join(root, "x") == "\\x" && !IsWindowsAbsolute(Join(root, "x"))
            && Components(Join(root, "x")) == ["\\x"]
  {
    var root := "\\\\";
    assert root[..1] == "\\" && "\\"[..0] == "";
    assert TrimEnd(true, "\\") == "";
    SplitSegment(false, "\\x", "");
    assert "" + "\\x" == "\\x";
  }

  /** The path that gains a class: `C:` joined with `x` becomes a drive root. */
  lemma BareDriveGainsClass()
    ensures var drive := "C:";
            !IsWindowsAbsolute(drive) && Join(drive, "x") == "C:/x" && IsWindowsAbsolute(Join(drive, "x"))
            && FromAbsolute(drive).None? && FromAbsolute(Join(drive, "x")).Some?
  {
    assert TrimEnd(false, "C:") == "C:" by { assert "C:"[|"C:"| - 1] == ':'; }
    assert "C:" + "/" + "x" == "C:/x";
  }

  function JoinAll(path: string, segments: seq<string>): string {
    if segments == [] then path else Join(JoinAll(path, segments[..|segments| - 1]), segments[|segments| - 1])
  }

  lemma {:induction false} JoinKeepsGood(path: string, segment: string)
    requires IsSegment(IsWindowsAbsolute(path), segment) && !ClassLost(path)
    ensures !ClassLost(Join(path, segment))
  {
    var windows := IsWindowsAbsolute(path);
    JoinClass(path, segment);
    TrimEndPrefix(windows, path);
    var joined := Join(path, segment);
    assert joined[|joined| - 1] == segment[|segment| - 1];
    assert joined[|TrimEnd(windows, path)|] == if windows then '\\' else '/';
  }

  /** Joining segments one after the other lists them all, in order. */
  lemma {:induction false} JoinAllAppends(path: string, segments: seq<string>)
    requires !ClassLost(path) && forall i :: 0 <= i < |segments| ==> IsSegment(IsWindowsAbsolute(path), segments[i])
    ensures Components(JoinAll(path, segments)) == Components(path) + segments
    ensures IsWindowsAbsolute(JoinAll(path, segments)) == IsWindowsAbsolute(path) && !ClassLost(JoinAll(path, segments))
  {
    hide ClassLost, Components, Join, IsWindowsAbsolute;
    if segments != [] {
      var rest, last := segments[..|segments| - 1], segments[|segments| - 1];
      JoinAllAppends(path, rest);
      JoinAppendsComponent(JoinAll(path, rest), last);
      JoinKeepsGood(JoinAll(path, rest), last);
      assert segments == rest + [last];
    }
  }
}
