/** Which paths a patch touches, and whether they are all in scope. */
module PatchScope {
  import opened Common
  import opened Text
  import opened PathGuard

  // ---- patchTouchedPaths() -------------------------------------------------------------------

  predicate LineEnd(c: char) { c == '\n' || c == '\r' || c == '\U{2028}' || c == '\U{2029}' }

  /** The lines as a multiline regular expression sees them. */
  function Lines(s: string): (lines: seq<string>)
    ensures lines != []
  {
    if s == "" then [""]
    else
      var rest := Lines(s[1..]);
      if LineEnd(s[0]) then [""] + rest else [[s[0]] + rest[0]] + rest[1..]
  }

  /** What ends a line. */
  predicate EndsALine(code: int) { code == 10 || code == 13 || code == 8232 || code == 8233 }

  function WithoutEnds(s: string): string {
    if s == "" then "" else (if EndsALine(s[0] as int) then "" else [s[0]]) + WithoutEnds(s[1..])
  }

  /** No line holds a line end, and together the lines are the text without them, one line more than ends. */
  lemma {:induction false} LinesAre(s: string)
    ensures forall line, i :: line in Lines(s) && 0 <= i < |line| ==> !EndsALine(line[i] as int)
    ensures Concat(Lines(s)) == WithoutEnds(s)
    ensures |Lines(s)| == 1 + |s| - |WithoutEnds(s)|
  {
    if s != "" {
      var rest := Lines(s[1..]);
      LinesAre(s[1..]);
      assert EndsALine(s[0] as int) <==> s[0] == '\n' || s[0] == '\r' || s[0] == '\U{2028}' || s[0] == '\U{2029}';
      if !EndsALine(s[0] as int) {
        var lines := [[s[0]] + rest[0]] + rest[1..];
        assert lines[1..] == rest[1..] && rest == [rest[0]] + rest[1..];
        assert [s[0]] + (rest[0] + Concat(rest[1..])) == [s[0]] + rest[0] + Concat(rest[1..]);
      } else {
        assert ([""] + rest)[1..] == rest;
      }
    }
  }

  const HEADER := "diff --git a/"
  const MIDDLE := " b/"

  /** The first split of `text` at MIDDLE, from position `i` on, with something after it. */
  function FirstSplit(text: string, i: nat): Option<(string, string)>
    decreases |text| - i
  {
    if |text| < i + 4 then None
    else if text[i..i + 3] == MIDDLE then Some((text[..i], text[i + 3..]))
    else FirstSplit(text, i + 1)
  }

  function Header(line: string): Option<(string, string)> {
    if StartsWith(line, HEADER) then FirstSplit(line[|HEADER|..], 1) else None
  }

  function Add(paths: seq<string>, path: string): seq<string> {
    if path in paths then paths else paths + [path]
  }

  /** The paths of the headers among some lines, in order, each once. */
  function Touched(lines: seq<string>): seq<string> {
    if lines == [] then []
    else
      var before := Touched(lines[..|lines| - 1]);
      match Header(lines[|lines| - 1])
      case None => before
      case Some((a, b)) => Add(Add(before, a), b)
  }

  method PatchTouchedPaths(patch: string) returns (paths: Option<seq<string>>)
    ensures var touched := Touched(Lines(patch)); paths == if touched == [] then None else Some(touched)
  {
    var lines := Lines(patch);
    var found := [];
    for i := 0 to |lines|
      invariant found == Touched(lines[..i])
    {
      assert lines[..i + 1][..i] == lines[..i];
      match Header(lines[i]) {
        case None =>
        case Some((a, b)) => found := Add(Add(found, a), b);
      }
    }
    assert lines[..|lines|] == lines;
    paths := if found == [] then None else Some(found);
  }

  predicate Names(line: string, path: string) {
    Header(line).Some? && (Header(line).value.0 == path || Header(line).value.1 == path)
  }

  /** Exactly the paths some header names, without repetition. */
  lemma {:induction false} TouchedExactly(lines: seq<string>)
    ensures forall path :: path in Touched(lines) <==> exists i :: 0 <= i < |lines| && Names(lines[i], path)
    ensures forall i, j :: 0 <= i < j < |Touched(lines)| ==> Touched(lines)[i] != Touched(lines)[j]
  {
    if lines != [] {
      var before, last := lines[..|lines| - 1], lines[|lines| - 1];
      TouchedExactly(before);
      forall path ensures path in Touched(lines) <==> exists i :: 0 <= i < |lines| && Names(lines[i], path) {
        if Names(last, path) {
          assert Names(lines[|lines| - 1], path);
        } else if i :| 0 <= i < |lines| && Names(lines[i], path) {
          assert Names(before[i], path);
        }
        if i :| 0 <= i < |before| && Names(before[i], path) {
          assert Names(lines[i], path);
        }
      }
    }
  }

  // ---- What a header says --------------------------------------------------------------------

  predicate HoldsMiddle(path: string) {
    exists i {:trigger path[i..i + 3]} :: 1 <= i && i + 3 <= |path| && path[i..i + 3] == MIDDLE
  }

  lemma {:induction false} FirstSplitIs(text: string, i: nat, k: nat)
    requires i <= k && k + 4 <= |text| && text[k..k + 3] == MIDDLE
    requires forall j {:trigger text[j..j + 3]} :: i <= j < k ==> text[j..j + 3] != MIDDLE
    ensures FirstSplit(text, i) == Some((text[..k], text[k + 3..]))
    decreases k - i
  {
    if i < k {
      assert text[i..i + 3] != MIDDLE;
      FirstSplitIs(text, i + 1, k);
    }
  }

  predicate SplitsFirst(text: string, i: nat, k: nat) {
    && i <= k && k + 4 <= |text| && text[k..k + 3] == MIDDLE
    && (forall j {:trigger text[j..j + 3]} :: i <= j < k ==> text[j..j + 3] != MIDDLE)
  }

  lemma {:induction false} FirstSplitSome(text: string, i: nat)
    requires FirstSplit(text, i).Some?
    ensures exists k: nat :: SplitsFirst(text, i, k) && FirstSplit(text, i).value == (text[..k], text[k + 3..])
    decreases |text| - i
  {
    if text[i..i + 3] != MIDDLE {
      FirstSplitSome(text, i + 1);
      var k: nat :| SplitsFirst(text, i + 1, k) && FirstSplit(text, i + 1).value == (text[..k], text[k + 3..]);
      assert SplitsFirst(text, i, k);
    } else {
      assert SplitsFirst(text, i, i);
    }
  }

  /** git's header for an unchanged name is read back as that name exactly when the name does not itself
      hold the middle part. */
  lemma HeaderReadsNameIff(path: string)
    requires path != ""
    ensures Header(HEADER + path + MIDDLE + path) == Some((path, path)) <==> !HoldsMiddle(path)
  {
    var line := HEADER + path + MIDDLE + path;
    var text := line[|HEADER|..];
    assert line[..|HEADER|] == HEADER && text == path + MIDDLE + path;
    assert text[..|path|] == path && text[|path|..|path| + 3] == MIDDLE && text[|path| + 3..] == path;
    if HoldsMiddle(path) {
      var i :| 1 <= i && i + 3 <= |path| && path[i..i + 3] == MIDDLE;
      assert text[i..i + 3] == path[i..i + 3];
      if FirstSplit(text, 1).Some? {
        FirstSplitSome(text, 1);
      }
    } else {
      forall j {:trigger text[j..j + 3]} | 1 <= j < |path| ensures text[j..j + 3] != MIDDLE {
        NoMiddleAcross(path, j);
      }
      FirstSplitIs(text, 1, |path|);
    }
  }

  lemma NoMiddleAcross(path: string, j: nat)
    requires !HoldsMiddle(path) && 1 <= j < |path|
    ensures (path + MIDDLE + path)[j..j + 3] != MIDDLE
  {
    var text := path + MIDDLE + path;
    if j + 3 <= |path| {
      assert text[j..j + 3] == path[j..j + 3];
    } else {
      assert text[|path|] == ' ' && text[j..j + 3][|path| - j] == ' ';
    }
  }

  // ---- validatePatchScope() ------------------------------------------------------------------

  datatype ScopeError = NoHeaders | UnsafePath | OutOfScope

  /** `paths.map(check)` for a check that throws: all the answers, or None at the first failure. */
  function Checked(check: string -> Option<string>, paths: seq<string>): Option<seq<string>> {
    if paths == [] then Some([])
    else if check(paths[0]).None? then None
    else
      match Checked(check, paths[1..])
      case None => None
      case Some(rest) => Some([check(paths[0]).value] + rest)
  }

  lemma {:induction false} CheckedIs(check: string -> Option<string>, paths: seq<string>)
    ensures Checked(check, paths).Some? <==> forall i :: 0 <= i < |paths| ==> check(paths[i]).Some?
    ensures Checked(check, paths).Some? ==> |Checked(check, paths).value| == |paths|
    ensures Checked(check, paths).Some? ==> forall i :: 0 <= i < |paths| ==> check(paths[i]) == Some(Checked(check, paths).value[i])
  {
    if paths != [] {
      var rest := paths[1..];
      CheckedIs(check, rest);
      assert paths == [paths[0]] + rest;
      assert forall i :: 0 <= i < |rest| ==> rest[i] == paths[i + 1];
    }
  }

  /** `safePath` on each, failing at the first that is unsafe. */
  function SafeAll(paths: seq<string>): Option<seq<string>> {
    Checked(SafeRelativePath, paths)
  }

  lemma SafeAllIs(paths: seq<string>)
    ensures SafeAll(paths).Some? <==> forall i :: 0 <= i < |paths| ==> SafeRelativePath(paths[i]).Some?
    ensures SafeAll(paths).Some? ==> |SafeAll(paths).value| == |paths|
    ensures SafeAll(paths).Some? ==> forall i :: 0 <= i < |paths| ==> SafeRelativePath(paths[i]) == Some(SafeAll(paths).value[i])
  {
    CheckedIs(SafeRelativePath, paths);
  }

  predicate InScope(paths: seq<string>, owned: Option<seq<string>>) {
    owned.Some? ==> forall i :: 0 <= i < |paths| ==> OwnedByManifest(paths[i], owned.value)
  }

  /** `owned` is None for an unscoped project. */
  function ScopeReply(touched: seq<string>, owned: Option<seq<string>>): Result<seq<string>, ScopeError> {
    if touched == [] then Err(NoHeaders)
    else
      match SafeAll(touched)
      case None => Err(UnsafePath)
      case Some(safe) => if InScope(safe, owned) then Ok(safe) else Err(OutOfScope)
  }

  method AllOwned(paths: seq<string>, manifest: seq<string>) returns (all: bool)
    ensures all <==> InScope(paths, Some(manifest))
  {
    for i := 0 to |paths|
      invariant forall j :: 0 <= j < i ==> OwnedByManifest(paths[j], manifest)
    {
      if !OwnedByManifest(paths[i], manifest) {
        return false;
      }
    }
    all := true;
  }

  method ValidatePatchScope(patch: string, owned: Option<seq<string>>) returns (reply: Result<seq<string>, ScopeError>)
    ensures reply == ScopeReply(Touched(Lines(patch)), owned)
  {
    var paths := PatchTouchedPaths(patch);
    if paths.None? {
      return Err(NoHeaders);
    }
    var safe := SafeAll(paths.value);
    if safe.None? {
      return Err(UnsafePath);
    }
    if owned.Some? {
      var all := AllOwned(safe.value, owned.value);
      if !all {
        return Err(OutOfScope);
      }
    }
    reply := Ok(safe.value);
  }

  /** A header's name is fit for the patch to be accepted. */
  predicate Allowed(path: string, owned: Option<seq<string>>) {
    && SafeRelativePath(path).Some?
    && (owned.Some? ==> OwnedByManifest(SafeRelativePath(path).value, owned.value))
  }

  predicate AllAllowed(paths: seq<string>, owned: Option<seq<string>>) {
    forall path :: path in paths ==> Allowed(path, owned)
  }

  predicate LineAllowed(line: string, owned: Option<seq<string>>) {
    Header(line).Some? ==> Allowed(Header(line).value.0, owned) && Allowed(Header(line).value.1, owned)
  }

  /** The safe paths are in scope exactly if the names they come from are allowed. */
  lemma SafeMeaning(touched: seq<string>, safe: seq<string>, owned: Option<seq<string>>)
    requires |safe| == |touched| && forall i :: 0 <= i < |touched| ==> SafeRelativePath(touched[i]) == Some(safe[i])
    ensures InScope(safe, owned) <==> AllAllowed(touched, owned)
  {
    if InScope(safe, owned) {
      forall path | path in touched ensures Allowed(path, owned) {
        var i :| 0 <= i < |touched| && touched[i] == path;
        assert SafeRelativePath(touched[i]) == Some(safe[i]);
      }
    }
    if AllAllowed(touched, owned) {
      forall i | 0 <= i < |safe| ensures owned.Some? ==> OwnedByManifest(safe[i], owned.value) {
        assert Allowed(touched[i], owned);
      }
    }
  }

  lemma ReplyMeaning(touched: seq<string>, owned: Option<seq<string>>)
    ensures ScopeReply(touched, owned).Ok? <==> touched != [] && AllAllowed(touched, owned)
  {
    SafeAllIs(touched);
    if SafeAll(touched).Some? {
      SafeMeaning(touched, SafeAll(touched).value, owned);
    } else {
      var i :| 0 <= i < |touched| && SafeRelativePath(touched[i]).None?;
      assert !Allowed(touched[i], owned);
    }
  }

  lemma AddAllowed(paths: seq<string>, path: string, owned: Option<seq<string>>)
    ensures AllAllowed(Add(paths, path), owned) <==> AllAllowed(paths, owned) && Allowed(path, owned)
  {
    assert forall other :: other in Add(paths, path) <==> other in paths || other == path;
  }

  predicate LinesAllowed(lines: seq<string>, owned: Option<seq<string>>) {
    forall i :: 0 <= i < |lines| ==> LineAllowed(lines[i], owned)
  }

  lemma LinesAllowedSnoc(lines: seq<string>, owned: Option<seq<string>>)
    requires lines != []
    ensures LinesAllowed(lines, owned) <==>
      LinesAllowed(lines[..|lines| - 1], owned) && LineAllowed(lines[|lines| - 1], owned)
  {
    assert forall i :: 0 <= i < |lines| - 1 ==> lines[i] == lines[..|lines| - 1][i];
  }

  lemma {:induction false} TouchedAllowed(lines: seq<string>, owned: Option<seq<string>>)
    ensures AllAllowed(Touched(lines), owned) <==> LinesAllowed(lines, owned)
  {
    if lines != [] {
      var before, header := Touched(lines[..|lines| - 1]), Header(lines[|lines| - 1]);
      TouchedAllowed(lines[..|lines| - 1], owned);
      LinesAllowedSnoc(lines, owned);
      if header.Some? {
        AddAllowed(before, header.value.0, owned);
        AddAllowed(Add(before, header.value.0), header.value.1, owned);
      }
    }
  }

  lemma {:induction false} TouchedSome(lines: seq<string>)
    ensures Touched(lines) != [] <==> exists i :: 0 <= i < |lines| && Header(lines[i]).Some?
  {
    if lines != [] {
      var before := lines[..|lines| - 1];
      TouchedSome(before);
      assert forall i :: 0 <= i < |before| ==> lines[i] == before[i];
      assert Header(lines[|lines| - 1]).Some? ==> Touched(lines) != [];
    }
  }

  /** A patch is accepted exactly when some header names a path and every name in every header is safe
      and, if scoped, owned once normalized. */
  lemma {:induction false} AcceptedIffAllAllowed(patch: string, owned: Option<seq<string>>)
    ensures var lines := Lines(patch);
      ScopeReply(Touched(lines), owned).Ok? <==>
        && (exists i :: 0 <= i < |lines| && Header(lines[i]).Some?)
        && (forall i :: 0 <= i < |lines| ==> LineAllowed(lines[i], owned))
  {
    TouchedAllowed(Lines(patch), owned);
    TouchedSome(Lines(patch));
    ReplyMeaning(Touched(Lines(patch)), owned);
  }

  // ---- What an accepted patch can touch ------------------------------------------------------

  // What a "dir/**" entry names, None for any other entry.
  function Directory(entry: string): Option<string> {
    if EndsWith(entry, "/**") && 3 < |entry| then Some(entry[..|entry| - 3]) else None
  }

  // A normalized path that a manifest entry lets through: the entry itself, or a path whose segments
  // begin with those of the entry's directory.
  predicate Within(safe: string, entry: string) {
    match Directory(entry)
    case None => safe == entry
    case Some(dir) => Split(dir, '/') <= Kept(Split(safe, '/'))
  }

  lemma EntryWithin(path: string, entry: string)
    requires SafeRelativePath(path).Some? && EntryOwns(entry, SafeRelativePath(path).value)
    ensures Within(SafeRelativePath(path).value, entry)
  {
    if Directory(entry).Some? {
      var dir := Directory(entry).value;
      assert entry == dir + "/**";
      DirectoryEntryOwnsBelow(path, dir);
    }
  }

  /** Whatever an accepted patch names, in whatever header, is once normalized an entry of the manifest
      or lies in a directory of it; the whole-repository pattern lets nothing through. */
  lemma {:induction false} AcceptedStaysInManifest(patch: string, manifest: seq<string>, line: string, path: string)
    requires ScopeReply(Touched(Lines(patch)), Some(manifest)).Ok?
    requires line in Lines(patch) && Names(line, path)
    ensures SafeRelativePath(path).Some?
    ensures exists entry :: entry in manifest && entry != "**" && Within(SafeRelativePath(path).value, entry)
  {
    AcceptedIffAllAllowed(patch, Some(manifest));
    assert LineAllowed(line, Some(manifest));
    var safe := SafeRelativePath(path).value;
    var i :| 0 <= i < |manifest| && EntryOwns(manifest[i], safe);
    EntryWithin(path, manifest[i]);
    assert manifest[i] in manifest;
  }

  // ---- What the check looks at -----------------------------------------------------------------

  lemma {:induction false} LinesJoined(a: string, b: string)
    ensures Lines(a + "\n" + b) == Lines(a) + Lines(b)
  {
    if a == "" {
      assert (a + "\n" + b)[1..] == b;
    } else {
      assert (a + "\n" + b)[1..] == a[1..] + "\n" + b;
      LinesJoined(a[1..], b);
    }
  }

  lemma {:induction false} TouchedWithout(lines: seq<string>, more: seq<string>)
    requires forall line :: line in more ==> Header(line).None?
    ensures Touched(lines + more) == Touched(lines)
    decreases |more|
  {
    if more == [] {
      assert lines + more == lines;
    } else {
      var all := lines + more;
      assert all[..|all| - 1] == lines + more[..|more| - 1];
      TouchedWithout(lines, more[..|more| - 1]);
    }
  }

  /** The reply rests on the headers of this one form: a section whose lines do not begin like one, as with
      quoted names or with "---" and "+++" lines alone, changes nothing, whatever it names. */
  lemma OnlyHeadersCount(patch: string, section: string, owned: Option<seq<string>>)
    requires forall line :: line in Lines(section) ==> !StartsWith(line, HEADER)
    ensures ScopeReply(Touched(Lines(patch + "\n" + section)), owned) == ScopeReply(Touched(Lines(patch)), owned)
  {
    LinesJoined(patch, section);
    TouchedWithout(Lines(patch), Lines(section));
  }
}
