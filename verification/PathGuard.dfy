/** The repository-relative path guard and the manifest matcher. */
module PathGuard {
  import opened Common
  import opened Text

  // ---- Strings and segments ------------------------------------------------------------------

  /** `path.replaceAll("\\", "/")` */
  function Slashed(s: string): string {
    if s == "" then "" else [if s[0] == '\\' then '/' else s[0]] + Slashed(s[1..])
  }

  /** `path.split(/[\\/]/)` */
  function SplitEither(s: string): (pieces: seq<string>)
    ensures pieces != []
  {
    if s == "" then [""]
    else
      var rest := SplitEither(s[1..]);
      if s[0] == '\\' || s[0] == '/' then [""] + rest else [[s[0]] + rest[0]] + rest[1..]
  }

  function Join(names: seq<string>): string {
    if names == [] then "" else if |names| == 1 then names[0] else names[0] + "/" + Join(names[1..])
  }

  function Lower(c: char): char {
    if 'A' <= c <= 'Z' then ((c as int) + 32) as char else c
  }

  predicate IsGit(segment: string) {
    |segment| == 4 && segment[0] == '.' && Lower(segment[1]) == 'g' && Lower(segment[2]) == 'i' && Lower(segment[3]) == 't'
  }

  predicate Glob(c: char) { c == '*' || c == '?' || c == '[' || c == ':' }

  predicate Deceptive(c: char) {
    '\U{200B}' <= c <= '\U{200F}' || '\U{202A}' <= c <= '\U{202E}' || '\U{2066}' <= c <= '\U{2069}' || c == '\U{FEFF}'
  }

  predicate GoodChar(c: char) { c != '\0' && !Glob(c) && !Deceptive(c) }

  predicate GoodChars(s: string) {
    forall i :: 0 <= i < |s| ==> GoodChar(s[i])
  }

  // ---- The same, code point by code point -------------------------------------------------------

  /** NUL, four wildcard characters, zero-width and bidirectional marks and the byte order mark. */
  predicate Forbidden(code: int) {
    || code == 0 || code == 42 || code == 63 || code == 91 || code == 58
    || (8203 <= code < 8208) || (8234 <= code < 8239) || (8294 <= code < 8298) || code == 65279
  }

  lemma GoodCharIff(c: char)
    ensures GoodChar(c) <==> !Forbidden(c as int)
  {
    assert '*' as int == 42 && '?' as int == 63 && '[' as int == 91 && ':' as int == 58;
  }

  /** Four characters, each that of ".git" in either case. */
  lemma IsGitIff(segment: string)
    ensures IsGit(segment) <==> |segment| == 4 && forall i :: 0 <= i < 4 ==> segment[i] == ".git"[i] || segment[i] == ".GIT"[i]
  {
    if |segment| == 4 {
      LowerIs(segment[1], 'g', 'G');
      LowerIs(segment[2], 'i', 'I');
      LowerIs(segment[3], 't', 'T');
      assert ".git"[0] == '.' && ".git"[1] == 'g' && ".git"[2] == 'i' && ".git"[3] == 't';
      assert ".GIT"[0] == '.' && ".GIT"[1] == 'G' && ".GIT"[2] == 'I' && ".GIT"[3] == 'T';
    }
  }

  lemma LowerIs(c: char, lower: char, upper: char)
    requires 'a' <= lower <= 'z' && upper as int + 32 == lower as int
    ensures Lower(c) == lower <==> c == lower || c == upper
  {
  }

  // ---- posix.normalize() ---------------------------------------------------------------------

  /** Segments resolved on top of `stack`; ".." at the bottom stays only if `above` allows it. */
  function Resolve(segments: seq<string>, stack: seq<string>, above: bool): seq<string>
    decreases |segments|
  {
    if segments == [] then stack
    else
      var segment, rest := segments[0], segments[1..];
      if segment == "" || segment == "." then Resolve(rest, stack, above)
      else if segment != ".." then Resolve(rest, stack + [segment], above)
      else if stack != [] && stack[|stack| - 1] != ".." then Resolve(rest, stack[..|stack| - 1], above)
      else Resolve(rest, if above then stack + [".."] else stack, above)
  }

  function Normalize(path: string): string {
    if path == "" then "."
    else
      var absolute := path[0] == '/';
      var trailing := path[|path| - 1] == '/';
      var joined := Join(Resolve(Split(path, '/'), [], !absolute));
      if joined == "" then if absolute then "/" else if trailing then "./" else "."
      else (if absolute then "/" else "") + joined + (if trailing then "/" else "")
  }

  // ---- safeRelativePath() --------------------------------------------------------------------

  /** The normalized path; None where the source throws. */
  function SafeRelativePath(path: string): Option<string> {
    if path == "" || path[0] == '/' || !GoodChars(path) || ".." in SplitEither(path) then None
    else
      var normalized := Normalize(Slashed(path));
      if normalized == "." || normalized == "./" || StartsWith(normalized, "/") || StartsWith(normalized, "../") then None
      else if exists i :: 0 <= i < |Split(normalized, '/')| && IsGit(Split(normalized, '/')[i]) then None
      else Some(normalized)
  }

  // ---- Facts about segments ------------------------------------------------------------------

  /** The segments that name something. */
  function Kept(segments: seq<string>): seq<string> {
    if segments == [] then []
    else (if segments[0] == "" || segments[0] == "." then [] else [segments[0]]) + Kept(segments[1..])
  }

  function Names(path: string): seq<string> {
    Kept(SplitEither(path))
  }

  predicate NoSlash(s: string) {
    forall i :: 0 <= i < |s| ==> s[i] != '/'
  }

  lemma {:induction false} SplitSlashed(s: string)
    ensures Split(Slashed(s), '/') == SplitEither(s) && |Slashed(s)| == |s|
  {
    if s != "" {
      SplitSlashed(s[1..]);
      assert Slashed(s)[1..] == Slashed(s[1..]);
    }
  }

  /** What every segment of a good path is made of. */
  predicate GoodPieces(pieces: seq<string>) {
    forall i :: 0 <= i < |pieces| ==> GoodChars(pieces[i]) && NoSlash(pieces[i]) && '\\' !in pieces[i]
  }

  lemma {:induction false} SplitIsGood(s: string)
    requires GoodChars(s)
    ensures GoodPieces(SplitEither(s))
  {
    if s != "" {
      SplitIsGood(s[1..]);
    }
  }

  lemma {:induction false} KeptIsGood(segments: seq<string>)
    requires GoodPieces(segments)
    ensures GoodPieces(Kept(segments))
    ensures forall i :: 0 <= i < |Kept(segments)| ==> Kept(segments)[i] in segments && Kept(segments)[i] != "" && Kept(segments)[i] != "."
  {
    if segments != [] {
      var rest := segments[1..];
      assert GoodPieces(rest);
      KeptIsGood(rest);
      assert GoodPieces([segments[0]]);
    }
  }

  lemma {:induction false} ResolvePlain(segments: seq<string>, stack: seq<string>, above: bool)
    requires ".." !in segments
    ensures Resolve(segments, stack, above) == stack + Kept(segments)
    decreases |segments|
  {
    if segments != [] {
      var keep := segments[0] != "" && segments[0] != ".";
      ResolvePlain(segments[1..], if keep then stack + [segments[0]] else stack, above);
    }
  }

  lemma {:induction false} SplitNoSlash(s: string)
    requires NoSlash(s)
    ensures Split(s, '/') == [s]
  {
    if s != "" {
      SplitNoSlash(s[1..]);
      assert s == [s[0]] + s[1..];
    }
  }

  lemma SplitCons(c: char, s: string)
    ensures Split([c] + s, '/') == if c == '/' then [""] + Split(s, '/') else [[c] + Split(s, '/')[0]] + Split(s, '/')[1..]
  {
    assert ([c] + s)[1..] == s;
  }

  lemma ConsFirst(c: char, left: seq<string>, right: seq<string>)
    requires left != []
    ensures [[c] + (left + right)[0]] + (left + right)[1..] == ([[c] + left[0]] + left[1..]) + right
    ensures [""] + (left + right) == ([""] + left) + right
  {
    assert (left + right)[1..] == left[1..] + right;
  }

  /** Splitting at one separator. */
  lemma {:induction false} SplitAt(a: string, b: string)
    ensures Split(a + "/" + b, '/') == Split(a, '/') + Split(b, '/')
  {
    if a == "" {
      SplitCons('/', b);
      assert a + "/" + b == ['/'] + b;
    } else {
      SplitAt(a[1..], b);
      assert a == [a[0]] + a[1..];
      SplitCons(a[0], a[1..]);
      SplitCons(a[0], a[1..] + "/" + b);
      assert a + "/" + b == [a[0]] + (a[1..] + "/" + b);
      ConsFirst(a[0], Split(a[1..], '/'), Split(b, '/'));
    }
  }

  lemma {:induction false} SplitJoin(names: seq<string>)
    requires GoodPieces(names) && names != []
    ensures Split(Join(names), '/') == names
  {
    if |names| == 1 {
      SplitNoSlash(names[0]);
    } else {
      SplitJoin(names[1..]);
      SplitAt(names[0], Join(names[1..]));
      SplitNoSlash(names[0]);
      assert names == [names[0]] + names[1..];
    }
  }

  lemma {:induction false} JoinIsGood(names: seq<string>)
    requires GoodPieces(names)
    ensures GoodChars(Join(names)) && '\\' !in Join(names)
  {
    if |names| > 1 {
      JoinIsGood(names[1..]);
    }
  }

  lemma {:induction false} SlashedPlain(s: string)
    requires '\\' !in s
    ensures Slashed(s) == s
  {
    if s != "" {
      SlashedPlain(s[1..]);
      assert s == [s[0]] + s[1..];
    }
  }

  lemma {:induction false} KeptAll(names: seq<string>)
    requires forall i :: 0 <= i < |names| ==> names[i] != "" && names[i] != "."
    ensures Kept(names) == names && Kept(names + [""]) == names
  {
    if names == [] {
      assert Kept([""]) == [];
    } else {
      KeptAll(names[1..]);
      assert (names + [""])[1..] == names[1..] + [""];
      assert names == [names[0]] + names[1..];
    }
  }

  lemma {:induction false} SlashedChars(s: string)
    ensures |Slashed(s)| == |s| && forall i :: 0 <= i < |s| ==> Slashed(s)[i] == if s[i] == '\\' then '/' else s[i]
  {
    if s != "" {
      SlashedChars(s[1..]);
    }
  }

  lemma JoinStarts(names: seq<string>)
    requires names != [] && names[0] != "" && GoodPieces(names)
    ensures Join(names) != "" && Join(names)[0] == names[0][0] != '/'
  {
  }

  // ---- What is accepted, and as what ---------------------------------------------------------

  predicate EndsWithSlash(path: string) {
    path != "" && (path[|path| - 1] == '/' || path[|path| - 1] == '\\')
  }

  /** The result for names: joined, with the trailing separator kept. */
  function Tidy(names: seq<string>, trailing: bool): string {
    Join(names) + if trailing then "/" else ""
  }

  predicate SafeNames(names: seq<string>) {
    && names != []
    && GoodPieces(names)
    && forall i :: 0 <= i < |names| ==> names[i] != "" && names[i] != "." && names[i] != ".." && !IsGit(names[i])
  }

  lemma TidySegments(names: seq<string>, trailing: bool)
    requires names != [] && GoodPieces(names) && (forall i :: 0 <= i < |names| ==> names[i] != "" && names[i] != ".")
    ensures Split(Tidy(names, trailing), '/') == if trailing then names + [""] else names
    ensures Kept(Split(Tidy(names, trailing), '/')) == names
    ensures Tidy(names, trailing) != "" && Tidy(names, trailing)[0] != '/'
    ensures GoodChars(Tidy(names, trailing)) && '\\' !in Tidy(names, trailing)
  {
    SplitJoin(names);
    KeptAll(names);
    JoinStarts(names);
    JoinIsGood(names);
    if trailing {
      SplitAt(Join(names), "");
      assert Join(names) + "/" + "" == Join(names) + "/";
    } else {
      assert Join(names) + "" == Join(names);
    }
  }

  /** Without ".." segments normalization only drops empty and "." segments. */
  lemma {:induction false} NormalizePlain(path: string)
    requires path != "" && path[0] != '/' && GoodChars(path) && ".." !in SplitEither(path) && path[0] != '\\'
    ensures Normalize(Slashed(path)) ==
      if Names(path) != [] then Tidy(Names(path), EndsWithSlash(path)) else if EndsWithSlash(path) then "./" else "."
  {
    SplitSlashed(path);
    SlashedChars(path);
    ResolvePlain(SplitEither(path), [], true);
    assert [] + Names(path) == Names(path);
    SplitIsGood(path);
    KeptIsGood(SplitEither(path));
    if Names(path) != [] {
      JoinStarts(Names(path));
      assert "" + Join(Names(path)) == Join(Names(path));
    }
  }

  lemma NormalizeRooted(path: string)
    requires path != "" && path[0] == '\\'
    ensures StartsWith(Normalize(Slashed(path)), "/")
  {
    SlashedChars(path);
  }

  lemma GitSegments(names: seq<string>, trailing: bool)
    requires names != [] && GoodPieces(names) && (forall i :: 0 <= i < |names| ==> names[i] != "" && names[i] != ".")
    ensures var segments := Split(Tidy(names, trailing), '/');
      (exists i :: 0 <= i < |segments| && IsGit(segments[i])) <==> exists i :: 0 <= i < |names| && IsGit(names[i])
  {
    TidySegments(names, trailing);
    var segments := Split(Tidy(names, trailing), '/');
    if i :| 0 <= i < |names| && IsGit(names[i]) {
      assert IsGit(segments[i]);
    }
    if i :| 0 <= i < |segments| && IsGit(segments[i]) {
      assert IsGit(names[i]);
    }
  }

  lemma FirstSegment(path: string, names: seq<string>, trailing: bool)
    requires path == Tidy(names, trailing) && names != [] && GoodPieces(names) && names[0] != ".."
    requires forall i :: 0 <= i < |names| ==> names[i] != "" && names[i] != "."
    ensures path != "." && path != "./" && !StartsWith(path, "/") && !StartsWith(path, "../")
  {
    TidySegments(names, trailing);
    SplitDots();
    if StartsWith(path, "../") {
      StartsUp(path);
    }
  }

  lemma StartsUp(path: string)
    requires StartsWith(path, "../")
    ensures Split(path, '/')[0] == ".."
  {
    SplitDots();
    SplitAt("..", path[3..]);
    assert path == ".." + "/" + path[3..];
  }

  lemma SplitDots()
    ensures Split(".", '/') == ["."] && Split("./", '/') == [".", ""] && Split("..", '/') == [".."]
  {
    assert Split("", '/') == [""];
    assert "./"[1..] == "/" && "/"[1..] == "";
    SplitNoSlash(".");
    SplitNoSlash("..");
    SplitAt(".", "");
    assert "." + "/" + "" == "./";
  }

  /** The tests on the raw path. */
  predicate Plausible(path: string) {
    path != "" && path[0] != '/' && GoodChars(path) && ".." !in SplitEither(path)
  }

  /** The tests on the normalized path. */
  predicate Normal(normalized: string) {
    && normalized != "." && normalized != "./" && !StartsWith(normalized, "/") && !StartsWith(normalized, "../")
    && !exists i :: 0 <= i < |Split(normalized, '/')| && IsGit(Split(normalized, '/')[i])
  }

  lemma GuardIs(path: string)
    ensures SafeRelativePath(path) ==
      if Plausible(path) && Normal(Normalize(Slashed(path))) then Some(Normalize(Slashed(path))) else None
  {
  }

  lemma TidyIsNormal(names: seq<string>, trailing: bool)
    requires names != [] && GoodPieces(names) && (forall i :: 0 <= i < |names| ==> names[i] != "" && names[i] != "." && names[i] != "..")
    ensures Normal(Tidy(names, trailing)) <==> SafeNames(names)
  {
    FirstSegment(Tidy(names, trailing), names, trailing);
    GitSegments(names, trailing);
  }

  lemma NamesAreGood(path: string)
    requires Plausible(path)
    ensures GoodPieces(Names(path))
    ensures forall i :: 0 <= i < |Names(path)| ==> Names(path)[i] != "" && Names(path)[i] != "." && Names(path)[i] != ".."
  {
    SplitIsGood(path);
    KeptIsGood(SplitEither(path));
  }

  /** The guard accepts a path exactly when it does not start with a separator of either kind, holds no
      forbidden character, and its segments, split at either separator, name something other than "..",
      ".git" in any case, and nothing; and the answer is those names joined. */
  lemma AcceptedIff(path: string)
    ensures SafeRelativePath(path) ==
      if Plausible(path) && path[0] != '\\' && SafeNames(Names(path)) then Some(Tidy(Names(path), EndsWithSlash(path))) else None
  {
    GuardIs(path);
    if Plausible(path) {
      if path[0] == '\\' {
        NormalizeRooted(path);
      } else {
        NormalizePlain(path);
        NamesAreGood(path);
        if Names(path) != [] {
          TidyIsNormal(Names(path), EndsWithSlash(path));
        }
      }
    }
  }

  /** What the guard answers is made of the same names again. */
  lemma TidyNames(names: seq<string>, trailing: bool)
    requires SafeNames(names)
    ensures var result := Tidy(names, trailing);
      Names(result) == names && EndsWithSlash(result) == trailing && Plausible(result) && result[0] != '\\'
  {
    TidySegments(names, trailing);
    TidySplits(names, trailing);
    TidyEnds(names, trailing);
  }

  lemma TidyEnds(names: seq<string>, trailing: bool)
    requires SafeNames(names)
    ensures EndsWithSlash(Tidy(names, trailing)) == trailing
    ensures Tidy(names, trailing) != "" && Tidy(names, trailing)[0] != '\\'
  {
    JoinLast(names);
    TidySegments(names, trailing);
    var result := Tidy(names, trailing);
    assert result[0] in result;
    if trailing {
      assert result[|result| - 1] == '/';
    } else {
      assert result == Join(names);
    }
  }

  lemma TidySplits(names: seq<string>, trailing: bool)
    requires SafeNames(names)
    ensures var segments := SplitEither(Tidy(names, trailing));
      segments == (if trailing then names + [""] else names) && Kept(segments) == names && ".." !in segments
  {
    var result := Tidy(names, trailing);
    TidySegments(names, trailing);
    SplitSlashed(result);
    SlashedPlain(result);
  }

  /** Checking a checked path changes nothing. */
  lemma Idempotent(path: string)
    requires SafeRelativePath(path).Some?
    ensures SafeRelativePath(SafeRelativePath(path).value) == SafeRelativePath(path)
  {
    AcceptedIff(path);
    TidyNames(Names(path), EndsWithSlash(path));
    AcceptedIff(Tidy(Names(path), EndsWithSlash(path)));
  }

  lemma {:induction false} JoinLast(names: seq<string>)
    requires GoodPieces(names) && names != [] && names[|names| - 1] != ""
    ensures Join(names) != "" && !EndsWithSlash(Join(names))
  {
    if |names| > 1 {
      JoinLast(names[1..]);
    } else {
      assert names[0][|names[0]| - 1] in names[0];
    }
  }

  /** Resolved against any root, an accepted path stays strictly below it: the root's segments come
      first, then at least one more, none of them ".." or ".git". */
  lemma StaysBelowRoot(path: string, root: seq<string>)
    requires SafeRelativePath(path).Some?
    ensures var below := Resolve(Split(SafeRelativePath(path).value, '/'), root, false);
      && |root| < |below| && below[..|root|] == root
      && SafeNames(below[|root|..])
  {
    AcceptedIff(path);
    var names, trailing := Names(path), EndsWithSlash(path);
    TidySegments(names, trailing);
    var segments := Split(Tidy(names, trailing), '/');
    assert ".." !in segments;
    ResolvePlain(segments, root, false);
    assert (root + names)[|root|..] == names;
  }

  // ---- ownedByManifest() ---------------------------------------------------------------------

  predicate EndsWith(s: string, suffix: string) {
    |suffix| <= |s| && s[|s| - |suffix|..] == suffix
  }

  predicate EntryOwns(entry: string, path: string) {
    if entry == "**" then false
    else if EndsWith(entry, "/**") then 3 < |entry| && StartsWith(path, entry[..|entry| - 2])
    else path == entry
  }

  predicate OwnedByManifest(path: string, manifest: seq<string>) {
    exists i :: 0 <= i < |manifest| && EntryOwns(manifest[i], path)
  }

  // An entry "dir/**" lets through exactly what begins with "dir/"; "**" and "/**" nothing; any other
  // entry itself.
  lemma EntryOwnsIff(entry: string, dir: string, path: string)
    ensures !EntryOwns("**", path) && !EntryOwns("/**", path)
    ensures entry == dir + "/**" && dir != "" ==> (EntryOwns(entry, path) <==> exists rest :: path == dir + "/" + rest)
    ensures !EndsWith(entry, "/**") && entry != "**" ==> (EntryOwns(entry, path) <==> path == entry)
  {
    if entry == dir + "/**" && dir != "" {
      assert entry[|entry| - 3..] == "/**";
      assert entry[..|entry| - 2] == dir + "/";
      if EntryOwns(entry, path) {
        OwnedPrefix(dir, path);
      }
      if rest :| path == dir + "/" + rest {
        assert path[..|dir| + 1] == dir + "/";
      }
    }
  }

  /** A manifest owns what one of its entries lets through. */
  lemma OwnedIff(path: string, manifest: seq<string>)
    ensures OwnedByManifest(path, manifest) <==> exists entry :: entry in manifest && EntryOwns(entry, path)
  {
    if OwnedByManifest(path, manifest) {
      var i :| 0 <= i < |manifest| && EntryOwns(manifest[i], path);
      assert manifest[i] in manifest;
    }
  }

  // A safe path owned through a "dir/**" entry lies strictly below dir, unless it is "dir/" itself, which
  // the matcher lets through.
  lemma {:induction false} DirectoryEntryOwnsBelow(path: string, dir: string)
    requires SafeRelativePath(path).Some? && dir != ""
    requires EntryOwns(dir + "/**", SafeRelativePath(path).value)
    ensures var names := Kept(Split(SafeRelativePath(path).value, '/'));
      && Split(dir, '/') <= names
      && (Split(dir, '/') == names <==> SafeRelativePath(path).value == dir + "/")
  {
    var safe := SafeRelativePath(path).value;
    OwnedPrefix(dir, safe);
    var rest := safe[|dir| + 1..];
    AcceptedIff(path);
    var names, trailing := Names(path), EndsWithSlash(path);
    TidySegments(names, trailing);
    SplitAt(dir, rest);
    BelowDir(Split(dir, '/'), Split(rest, '/'), names, trailing);
    SplitEmpty(rest);
  }

  lemma OwnedPrefix(dir: string, path: string)
    requires dir != "" && EntryOwns(dir + "/**", path)
    ensures |dir| < |path| && path == dir + "/" + path[|dir| + 1..]
    ensures path == dir + "/" <==> path[|dir| + 1..] == ""
  {
    var entry := dir + "/**";
    assert entry[..|entry| - 2] == dir + "/";
    assert entry[|entry| - 3..] == "/**";
    assert path[..|dir| + 1] == dir + "/";
  }

  lemma SplitEmpty(s: string)
    ensures Split(s, '/') == [""] <==> s == ""
  {
    if s != "" {
      var rest := Split(s[1..], '/');
      assert s[0] == '/' ==> |[""] + rest| > 1;
      assert s[0] != '/' ==> ([[s[0]] + rest[0]] + rest[1..])[0] != "";
    }
  }

  lemma BelowDir(dir: seq<string>, rest: seq<string>, names: seq<string>, trailing: bool)
    requires dir + rest == (if trailing then names + [""] else names) && dir != [] && rest != []
    requires forall i :: 0 <= i < |names| ==> names[i] != ""
    ensures dir <= names && (dir == names <==> rest == [""])
  {
    var all := dir + rest;
    assert all[..|dir|] == dir && all[|dir|..] == rest;
    assert all[..|names|] == names;
    assert !trailing ==> rest[|rest| - 1] == names[|names| - 1];
  }
}
