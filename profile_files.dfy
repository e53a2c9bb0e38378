/**
 * Where a profile is stored: the file-name sanitiser of `save_profile_config`
 * (main.py:166-167) and the path functions the loader relies on (main.py:24, 47).
 *
 * The launcher is a Windows program (it starts `xray.exe` with a Windows-only creation
 * flag), so paths follow `ntpath`: `os.path.join` writes `\`, and `basename` splits at `\`
 * or `/`.
 */
module ProfileFiles {
  import opened Wrappers
  import opened PyStr

  /**
   * `str.isalnum()` for the characters profile names are written in: ASCII, the letters and
   * numerals of Latin-1, Latin Extended-A and -B, and the Cyrillic letters.
   */
  predicate IsAlnum(c: char) {
    || '0' <= c <= '9' || 'A' <= c <= 'Z' || 'a' <= c <= 'z'
    || c == '\U{AA}' || c == '\U{B2}' || c == '\U{B3}' || c == '\U{B5}' || c == '\U{B9}' || c == '\U{BA}'
    || '\U{BC}' <= c <= '\U{BE}'
    || '\U{C0}' <= c <= '\U{D6}'
    || '\U{D8}' <= c <= '\U{F6}'
    || '\U{F8}' <= c <= '\U{24F}'
    || '\U{400}' <= c <= '\U{481}'
    || '\U{48A}' <= c <= '\U{52F}'
  }

  /** The punctuation kept besides letters and digits: `" _-()[]"`. */
  predicate IsSafePunctuation(c: char) {
    c == ' ' || c == '_' || c == '-' || c == '(' || c == ')' || c == '[' || c == ']'
  }

  predicate Allowed(c: char) {
    IsAlnum(c) || IsSafePunctuation(c)
  }

  predicate AllAllowed(s: string) {
    forall i :: 0 <= i < |s| ==> Allowed(s[i])
  }

  /** `"".join(c for c in s if c.isalnum() or c in " _-()[]")`. */
  function KeepAllowed(s: string): string {
    if s == [] then []
    else (if Allowed(s[0]) then [s[0]] else []) + KeepAllowed(s[1..])
  }

  /** What the filter keeps is allowed. */
  lemma {:induction false} KeepAllowedSafe(s: string)
    ensures AllAllowed(KeepAllowed(s))
  {
    if s != [] {
      KeepAllowedSafe(s[1..]);
    }
  }

  /** The filter changes nothing in a text of allowed characters. */
  lemma {:induction false} KeepAllowedKeeps(s: string)
    requires AllAllowed(s)
    ensures KeepAllowed(s) == s
  {
    if s != [] {
      assert AllAllowed(s[1..]) by {
        assert forall i :: 0 <= i < |s| - 1 ==> s[1..][i] == s[i + 1];
      }
      KeepAllowedKeeps(s[1..]);
      assert [s[0]] + s[1..] == s;
    }
  }

  /** The safe name a profile's file is named after. */
  function Sanitise(name: string): string {
    Strip(KeepAllowed(name))
  }

  /** The filter works character by character: it commutes with concatenation. */
  lemma {:induction false} KeepAllowedAppend(a: string, b: string)
    ensures KeepAllowed(a + b) == KeepAllowed(a) + KeepAllowed(b)
  {
    if a == [] {
      assert a + b == b;
    } else {
      assert (a + b)[0] == a[0] && (a + b)[1..] == a[1..] + b;
      KeepAllowedAppend(a[1..], b);
    }
  }

  /** The filter keeps a character exactly when it is allowed. */
  lemma KeepAllowedChar(c: char)
    ensures KeepAllowed([c]) == if Allowed(c) then [c] else []
  {
    assert [c][1..] == [];
  }

  lemma {:induction false} KeepAllowedSubsequence(s: string)
    ensures IsSubsequence(KeepAllowed(s), s)
  {
    if s != [] {
      KeepAllowedSubsequence(s[1..]);
      if Allowed(s[0]) {
        assert KeepAllowed(s)[1..] == KeepAllowed(s[1..]);
      } else {
        assert KeepAllowed(s) == KeepAllowed(s[1..]);
        SubsequenceOfTail(KeepAllowed(s), s);
      }
    }
  }

  /**
   * A sanitised name holds allowed characters only, neither starts nor ends with a space,
   * and is the original name with characters taken out.
   */
  lemma SanitiseSafe(name: string)
    ensures AllAllowed(Sanitise(name))
    ensures Sanitise(name) == [] || (Sanitise(name)[0] != ' ' && Sanitise(name)[|Sanitise(name)| - 1] != ' ')
    ensures IsSubsequence(Sanitise(name), name)
  {
    var kept := KeepAllowed(name);
    KeepAllowedSafe(name);
    StripKeepsCharacters(kept);
    var s := Sanitise(name);
    assert forall i :: 0 <= i < |s| ==> s[i] in kept;
    KeepAllowedSubsequence(name);
    StripSubsequence(kept, name);
  }

  /** Sanitising is stable: a sanitised name sanitises to itself. */
  lemma SanitiseIdempotent(name: string)
    ensures Sanitise(Sanitise(name)) == Sanitise(name)
  {
    SanitiseSafe(name);
    KeepAllowedKeeps(Sanitise(name));
    StripIdempotent(KeepAllowed(name));
  }

  /** A name made of allowed characters, without surrounding white space, is kept as it is. */
  lemma SanitiseKeepsSafeNames(name: string)
    requires AllAllowed(name)
    requires name == [] || (!IsSpace(name[0]) && !IsSpace(name[|name| - 1]))
    ensures Sanitise(name) == name
  {
    KeepAllowedKeeps(name);
    StripTrimmed(name);
  }

  /**
   * Different names can share a safe name, and so a file: a safe name followed by any
   * character the filter drops sanitises to that safe name.
   */
  lemma SanitiseCollides(safe: string, c1: char, c2: char)
    requires AllAllowed(safe)
    requires safe == [] || (!IsSpace(safe[0]) && !IsSpace(safe[|safe| - 1]))
    requires !Allowed(c1) && !Allowed(c2)
    ensures Sanitise(safe + [c1]) == Sanitise(safe + [c2]) == safe
  {
    KeepAllowedKeeps(safe);
    KeepAllowedAppend(safe, [c1]);
    KeepAllowedAppend(safe, [c2]);
    KeepAllowedChar(c1);
    KeepAllowedChar(c2);
    assert KeepAllowed(safe) + [] == safe;
    StripTrimmed(safe);
  }

  /** A name without allowed characters sanitises to the empty name. */
  lemma SanitiseCanBeEmpty(name: string)
    requires forall i :: 0 <= i < |name| ==> !Allowed(name[i]) || IsSpace(name[i])
    ensures Sanitise(name) == ""
  {
    var kept := KeepAllowed(name);
    KeepAllowedChars(name);
    KeepAllowedSafe(name);
    forall i | 0 <= i < |kept|
      ensures IsSpace(kept[i])
    {
      assert kept[i] in name;
    }
    StripLeftBlank(kept);
  }

  lemma {:induction false} StripLeftBlank(s: string)
    requires forall i :: 0 <= i < |s| ==> IsSpace(s[i])
    ensures StripLeft(s) == []
    decreases |s|
  {
    if s != [] {
      StripLeftBlank(s[1..]);
    }
  }

  lemma {:induction false} KeepAllowedChars(s: string)
    ensures forall c :: c in KeepAllowed(s) ==> c in s
  {
    if s != [] {
      KeepAllowedChars(s[1..]);
    }
  }

  const CONFIGS_DIR := "configs"
  const EXT := ".json"

  /** `os.path.join(dir, name)` for a relative `name` without a drive. */
  function JoinPath(dir: string, name: string): string {
    dir + "\\" + name
  }

  /** The file of a profile whose safe name is `safeName` (main.py:167). */
  function ConfigPath(safeName: string): string {
    JoinPath(CONFIGS_DIR, safeName + EXT)
  }

  predicate IsSep(c: char) {
    c == '\\' || c == '/'
  }

  /** `os.path.basename(path)`: what follows the last separator. */
  function Basename(path: string): (b: string)
    ensures |b| <= |path| && b == path[|path| - |b|..]
    ensures forall i :: 0 <= i < |b| ==> !IsSep(b[i])
    ensures |b| < |path| ==> IsSep(path[|path| - |b| - 1])
  {
    if path == [] || IsSep(path[|path| - 1]) then []
    else Basename(path[..|path| - 1]) + [path[|path| - 1]]
  }

  /** `s.rfind(c)` as an `Option`. */
  function FindLast(s: string, c: char): (r: Option<nat>)
    ensures r.None? <==> c !in s
    ensures r.Some? ==> r.value < |s| && s[r.value] == c && c !in s[r.value + 1..]
  {
    if s == [] then None
    else if s[|s| - 1] == c then Some(|s| - 1)
    else
      var r := FindLast(s[..|s| - 1], c);
      assert r.Some? ==> s[r.value + 1..] == s[..|s| - 1][r.value + 1..] + [s[|s| - 1]];
      r
  }

  lemma {:induction false} FindLastAt(a: string, c: char, b: string)
    requires c !in b
    ensures FindLast(a + [c] + b, c) == Some(|a|)
    decreases |b|
  {
    var s := a + [c] + b;
    if b == [] {
      assert s[|s| - 1] == c;
    } else {
      var front := b[..|b| - 1];
      assert s[|s| - 1] == b[|b| - 1];
      assert s[..|s| - 1] == a + [c] + front;
      FindLastAt(a, c, front);
    }
  }

  /**
   * `os.path.splitext(name)[0]` of a base name: the name without the text from its last
   * dot, unless only dots come before that dot (`.json` has no extension).
   */
  function SplitExtRoot(name: string): string {
    match FindLast(name, '.')
    case None => name
    case Some(d) =>
      if exists i :: 0 <= i < d && name[i] != '.' then name[..d] else name
  }

  /** The profile name the loader gives a file (main.py:47). */
  function Stem(path: string): string {
    SplitExtRoot(Basename(path))
  }

  function LowerAscii(c: char): char {
    if 'A' <= c <= 'Z' then (c as int + 32) as char else c
  }

  /**
   * Whether `glob("configs\\*.json")` lists a file of this base name. On Windows the match
   * ignores case, and `*` never matches a name starting with a dot.
   */
  predicate GlobMatches(name: string) {
    var n := |name|;
    && n >= 5
    && name[0] != '.'
    && name[n - 5] == '.'
    && LowerAscii(name[n - 4]) == 'j'
    && LowerAscii(name[n - 3]) == 's'
    && LowerAscii(name[n - 2]) == 'o'
    && LowerAscii(name[n - 1]) == 'n'
  }

  /**
   * A non-empty safe name survives the trip through the file system: its file is listed by
   * the loader's `glob`, and the loader names the profile after it.
   */
  lemma SafeNameRoundTrip(name: string)
    requires Sanitise(name) != ""
    ensures var safe := Sanitise(name);
      && Basename(ConfigPath(safe)) == safe + EXT
      && GlobMatches(safe + EXT)
      && Stem(ConfigPath(safe)) == safe
  {
    var safe := Sanitise(name);
    SanitiseSafe(name);
    forall i | 0 <= i < |safe|
      ensures !IsSep(safe[i]) && safe[i] != '.'
    {
      AllowedIsPlain(safe[i]);
    }
    FileOfSafeName(safe);
  }

  lemma AllowedIsPlain(c: char)
    requires Allowed(c)
    ensures !IsSep(c) && c != '.'
  {
  }

  /** The file of a non-empty name without dots or separators is listed and named after it. */
  lemma FileOfSafeName(safe: string)
    requires safe != []
    requires forall i :: 0 <= i < |safe| ==> !IsSep(safe[i]) && safe[i] != '.'
    ensures Basename(ConfigPath(safe)) == safe + EXT
    ensures GlobMatches(safe + EXT)
    ensures Stem(ConfigPath(safe)) == safe
  {
    BasenameOfConfigPath(safe);
    GlobListsSafeName(safe);
    SplitExtOfSafeName(safe);
  }

  lemma BasenameOfConfigPath(safe: string)
    requires forall i :: 0 <= i < |safe| ==> !IsSep(safe[i])
    ensures Basename(ConfigPath(safe)) == safe + EXT
  {
    var base := safe + EXT;
    assert forall i :: 0 <= i < |base| ==> !IsSep(base[i]) by {
      forall i | 0 <= i < |base| ensures !IsSep(base[i]) {
        if i >= |safe| {
          assert base[i] == EXT[i - |safe|];
        }
      }
    }
    assert ConfigPath(safe) == (CONFIGS_DIR + "\\") + base;
    BasenameAfterSep(CONFIGS_DIR + "\\", base);
  }

  lemma GlobListsSafeName(safe: string)
    requires safe != [] && safe[0] != '.'
    ensures GlobMatches(safe + EXT)
  {
    var base := safe + EXT;
    var n := |base|;
    assert base[0] == safe[0];
    assert base[n - 5] == '.' && base[n - 4] == 'j' && base[n - 3] == 's' && base[n - 2] == 'o' && base[n - 1] == 'n';
  }

  lemma SplitExtOfSafeName(safe: string)
    requires safe != [] && safe[0] != '.'
    requires '.' !in safe
    ensures SplitExtRoot(safe + EXT) == safe
  {
    var base := safe + EXT;
    assert base == safe + ['.'] + "json";
    FindLastAt(safe, '.', "json");
    assert base[0] == safe[0];
    assert base[..|safe|] == safe;
  }

  lemma {:induction false} BasenameAfterSep(dir: string, base: string)
    requires dir != [] && IsSep(dir[|dir| - 1])
    requires forall i :: 0 <= i < |base| ==> !IsSep(base[i])
    ensures Basename(dir + base) == base
    decreases |base|
  {
    var path := dir + base;
    if base == [] {
      assert path == dir;
    } else {
      var front := base[..|base| - 1];
      assert path[..|path| - 1] == dir + front;
      assert path[|path| - 1] == base[|base| - 1];
      BasenameAfterSep(dir, front);
      assert front + [base[|base| - 1]] == base;
    }
  }

  /** A profile whose safe name is empty is written to `configs\.json`, which `glob` never lists. */
  lemma EmptySafeNameNotListed()
    ensures ConfigPath("") == "configs\\.json"
    ensures !GlobMatches("" + EXT)
  {
  }
}
