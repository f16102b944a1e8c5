/**
  Filename sanitising, step by step, on text that the Unicode normalisation has already reduced to
  ASCII (on ASCII text that step is the identity).
 */
module Sanitize {
  const MAX_FILENAME_LENGTH := 255

  predicate IsSep(c: char) { c == '_' || c == '.' }

  /** [A-Za-z0-9_.-] */
  predicate IsSafe(c: char) {
    'a' <= c <= 'z' || 'A' <= c <= 'Z' || '0' <= c <= '9' || c == '-' || IsSep(c)
  }

  function DropNul(s: string): string {
    if s == "" then "" else DropNul(s[..|s| - 1]) + (if s[|s| - 1] == '\0' then "" else [s[|s| - 1]])
  }

  /** What follows the last occurrence of the mark; the whole text if there is none. */
  function AfterLast(s: string, mark: char): string {
    if s == "" || s[|s| - 1] == mark then "" else AfterLast(s[..|s| - 1], mark) + [s[|s| - 1]]
  }

  /** PurePosixPath(s).name: the last component that is neither empty nor ".". */
  function PosixName(s: string): string
    decreases |s|
  {
    var last := AfterLast(s, '/');
    if last != "" && last != "." then last
    else if |last| < |s| then PosixName(s[..|s| - |last| - 1])
    else ""
  }

  function StripDotsLeft(s: string): string {
    if s != "" && s[0] == '.' then StripDotsLeft(s[1..]) else s
  }

  function ReplaceUnsafe(s: string): (t: string)
    ensures |t| == |s| && forall i :: 0 <= i < |s| ==> t[i] == if IsSafe(s[i]) then s[i] else '_'
  {
    seq(|s|, i requires 0 <= i < |s| => if IsSafe(s[i]) then s[i] else '_')
  }

  /** How many separators the text starts with. */
  function SepRun(s: string): (n: nat)
    ensures n <= |s| && (forall i :: 0 <= i < n ==> IsSep(s[i])) && (n < |s| ==> !IsSep(s[n]))
  {
    if s == "" || !IsSep(s[0]) then 0 else 1 + SepRun(s[1..])
  }

  /** re.sub(r"[_.]{2,}", "_", s) */
  function Collapse(s: string): string
    decreases |s|
  {
    if s == "" then ""
    else
      var n := SepRun(s);
      if n <= 1 then [s[0]] + Collapse(s[1..]) else "_" + Collapse(s[n..])
  }

  function StripLeft(s: string): string {
    if s != "" && IsSep(s[0]) then StripLeft(s[1..]) else s
  }

  function StripRight(s: string): string {
    if s != "" && IsSep(s[|s| - 1]) then StripRight(s[..|s| - 1]) else s
  }

  /** The last component of the path, by both kinds of separator. */
  function BaseName(s: string): string {
    AfterLast(PosixName(DropNul(s)), '\\')
  }

  /** Everything up to the truncation. */
  function Tidied(s: string): string {
    StripRight(StripLeft(Collapse(ReplaceUnsafe(StripDotsLeft(BaseName(s))))))
  }

  function SanitizeFilename(s: string): string {
    var tidied := Tidied(s);
    var cut := if |tidied| > MAX_FILENAME_LENGTH then tidied[..MAX_FILENAME_LENGTH] else tidied;
    if cut == "" then "unnamed" else cut
  }

  // ---------------------------------------------------------------------------------------
  // What comes out
  // ---------------------------------------------------------------------------------------

  predicate AllSafe(s: string) { forall i :: 0 <= i < |s| ==> IsSafe(s[i]) }

  predicate NoAdjacentSeps(s: string) { forall i :: 0 <= i < |s| - 1 ==> !(IsSep(s[i]) && IsSep(s[i + 1])) }

  predicate StartsPlain(s: string) { s != "" ==> !IsSep(s[0]) }

  predicate EndsPlain(s: string) { s != "" ==> !IsSep(s[|s| - 1]) }

  lemma {:induction false} CollapseProperties(s: string)
    requires AllSafe(s)
    ensures AllSafe(Collapse(s)) && NoAdjacentSeps(Collapse(s))
    ensures Collapse(s) != "" ==> s != "" && (IsSep(Collapse(s)[0]) <==> IsSep(s[0]))
    decreases |s|
  {
    if s != "" {
      var n := SepRun(s);
      if n <= 1 {
        CollapseProperties(s[1..]);
      } else {
        CollapseProperties(s[n..]);
      }
    }
  }

  lemma {:induction false} StripLeftProperties(s: string)
    requires AllSafe(s) && NoAdjacentSeps(s)
    ensures AllSafe(StripLeft(s)) && NoAdjacentSeps(StripLeft(s)) && StartsPlain(StripLeft(s))
  {
    if s != "" && IsSep(s[0]) {
      StripLeftProperties(s[1..]);
    }
  }

  lemma {:induction false} StripRightProperties(s: string)
    requires AllSafe(s) && NoAdjacentSeps(s) && StartsPlain(s)
    ensures AllSafe(StripRight(s)) && NoAdjacentSeps(StripRight(s)) && StartsPlain(StripRight(s))
    ensures EndsPlain(StripRight(s))
  {
    if s != "" && IsSep(s[|s| - 1]) {
      StripRightProperties(s[..|s| - 1]);
    }
  }

  /** Safe characters only, no two separators in a row, none at either end. */
  predicate Tidy(s: string) {
    AllSafe(s) && NoAdjacentSeps(s) && StartsPlain(s) && EndsPlain(s)
  }

  lemma TidiedIsTidy(s: string)
    ensures Tidy(Tidied(s))
  {
    var replaced := ReplaceUnsafe(StripDotsLeft(BaseName(s)));
    assert AllSafe(replaced);
    CollapseProperties(replaced);
    StripLeftProperties(Collapse(replaced));
    StripRightProperties(StripLeft(Collapse(replaced)));
  }

  /**
    Every sanitised name is non-empty, at most 255 long, made of letters, digits, "_", "." and "-",
    does not start with "_" or ".", has no two adjacent characters from "_." and ends in one of them
    only where the truncation cut.
   */
  lemma SanitizedIsSafe(s: string)
    ensures
      var name := SanitizeFilename(s);
      && 1 <= |name| <= MAX_FILENAME_LENGTH
      && AllSafe(name) && StartsPlain(name) && NoAdjacentSeps(name)
      && (!EndsPlain(name) ==> |Tidied(s)| > MAX_FILENAME_LENGTH == |name|)
  {
    TidiedIsTidy(s);
    hide Tidied;
    assert Tidy("unnamed");
  }

  // ---------------------------------------------------------------------------------------
  // Sanitising again
  // ---------------------------------------------------------------------------------------

  lemma {:induction false} NothingToDrop(s: string, mark: char)
    requires forall i :: 0 <= i < |s| ==> s[i] != mark
    ensures AfterLast(s, mark) == s
    ensures mark == '\0' ==> DropNul(s) == s
  {
    if s != "" {
      NothingToDrop(s[..|s| - 1], mark);
    }
  }

  lemma {:induction false} NothingToCollapse(s: string)
    requires NoAdjacentSeps(s)
    ensures Collapse(s) == s
    decreases |s|
  {
    if s != "" {
      assert SepRun(s) <= 1;
      NothingToCollapse(s[1..]);
    }
  }

  /** On names that are safe and start plainly, only the end can still be stripped. */
  lemma TidiedOfSafe(s: string)
    requires AllSafe(s) && NoAdjacentSeps(s) && StartsPlain(s)
    ensures Tidied(s) == StripRight(s)
  {
    NothingToDrop(s, '\0');
    NothingToDrop(s, '/');
    NothingToDrop(s, '\\');
    assert PosixName(s) == s;
    assert ReplaceUnsafe(s) == s;
    NothingToCollapse(s);
  }

  /** A separator at the end is a single one. */
  lemma StripRightOfOne(s: string)
    requires s != "" && NoAdjacentSeps(s) && StartsPlain(s)
    ensures StripRight(s) == if EndsPlain(s) then s else s[..|s| - 1]
    ensures StripRight(s) != "" && EndsPlain(StripRight(s))
  {
    if !EndsPlain(s) {
      var n := |s| - 1;
      assert n >= 1;
      assert !IsSep(s[n - 1]);
      assert s[..n][|s[..n]| - 1] == s[n - 1];
    }
  }

  lemma SanitizedAgain(s: string)
    requires 1 <= |s| <= MAX_FILENAME_LENGTH && AllSafe(s) && NoAdjacentSeps(s) && StartsPlain(s)
    ensures SanitizeFilename(s) == if EndsPlain(s) then s else s[..|s| - 1]
    ensures EndsPlain(SanitizeFilename(s))
  {
    TidiedOfSafe(s);
    StripRightOfOne(s);
  }

  /**
    Sanitising a sanitised name changes nothing exactly when the name does not end in "_" or ".": that
    is, unless the truncation cut right after a separator.
   */
  lemma FixedExactly(s: string)
    ensures
      var name, tidied := SanitizeFilename(s), Tidied(s);
      && (SanitizeFilename(name) == name <==> EndsPlain(name))
      && (SanitizeFilename(name) == name
          <==> |tidied| <= MAX_FILENAME_LENGTH || !IsSep(tidied[MAX_FILENAME_LENGTH - 1]))
  {
    SanitizedIsSafe(s);
    SanitizedAgain(SanitizeFilename(s));
    TidiedIsTidy(s);
    hide Tidied;
  }

  /** After two applications a fixed point is always reached. */
  lemma TwiceIsFixed(s: string)
    ensures
      var twice := SanitizeFilename(SanitizeFilename(s));
      SanitizeFilename(twice) == twice
  {
    var once := SanitizeFilename(s);
    SanitizedIsSafe(s);
    SanitizedAgain(once);
    SanitizedIsSafe(once);
    SanitizedAgain(SanitizeFilename(once));
  }

  /** One application is not always enough: truncation can leave a separator at the end. */
  lemma OnceIsNotAlwaysFixed()
    ensures exists s: string :: SanitizeFilename(SanitizeFilename(s)) != SanitizeFilename(s)
  {
    var s := seq(257, i => if i == 254 then '_' else 'a');
    TidiedOfSafe(s);
    assert StripRight(s) == s;
    var name := SanitizeFilename(s);
    assert name == s[..MAX_FILENAME_LENGTH];
    assert !EndsPlain(name);
    FixedExactly(s);
  }

  /** A sanitised name is one path component: taking the base name of it, on any platform, changes nothing. */
  lemma SanitizedIsOneComponent(s: string)
    ensures
      var name := SanitizeFilename(s);
      PosixName(name) == name && AfterLast(name, '\\') == name
  {
    SanitizedIsSafe(s);
    var name := SanitizeFilename(s);
    NothingToDrop(name, '/');
    NothingToDrop(name, '\\');
  }

  // ---------------------------------------------------------------------------------------
  // Base names of joined paths
  // ---------------------------------------------------------------------------------------

  lemma {:induction false} AfterLastOfSuffix(p: string, s: string, mark: char)
    ensures AfterLast(p + [mark] + s, mark) == AfterLast(s, mark)
  {
    var t := p + [mark] + s;
    if s != "" {
      AfterLastOfSuffix(p, s[..|s| - 1], mark);
      assert t[..|t| - 1] == p + [mark] + s[..|s| - 1];
    }
  }

  lemma {:induction false} AfterLastIsSuffix(s: string, mark: char)
    ensures |AfterLast(s, mark)| <= |s| && mark !in AfterLast(s, mark)
    ensures AfterLast(s, mark) == s[|s| - |AfterLast(s, mark)|..]
  {
    if s != "" {
      AfterLastIsSuffix(s[..|s| - 1], mark);
    }
  }

  /** The base name of p/s is that of s, or that of p if s has none. */
  lemma {:induction false} PosixNameOfJoin(p: string, s: string)
    ensures PosixName(p + "/" + s) == if PosixName(s) != "" then PosixName(s) else PosixName(p)
    decreases |s|
  {
    var t, last := p + "/" + s, AfterLast(s, '/');
    AfterLastOfSuffix(p, s, '/');
    AfterLastIsSuffix(s, '/');
    hide AfterLast;
    if last == "" || last == "." {
      if |last| < |s| {
        var shorter := s[..|s| - |last| - 1];
        PosixNameOfJoin(p, shorter);
        assert t[..|t| - |last| - 1] == p + "/" + shorter;
      } else {
        assert t[..|t| - |last| - 1] == p;
      }
    }
  }

  /** A base name is a single component. */
  lemma {:induction false} PosixNameIsOneComponent(s: string)
    ensures '/' !in PosixName(s)
    decreases |s|
  {
    var last := AfterLast(s, '/');
    AfterLastIsSuffix(s, '/');
    if (last == "" || last == ".") && |last| < |s| {
      PosixNameIsOneComponent(s[..|s| - |last| - 1]);
    }
  }

  // ---------------------------------------------------------------------------------------
  // What is kept and what goes
  // ---------------------------------------------------------------------------------------

  /**
    The names left exactly as they are: non-empty, at most 255 long, of safe characters only, with no
    separator at either end and no two in a row.
   */
  lemma UnchangedExactly(s: string)
    ensures SanitizeFilename(s) == s <==> s != "" && |s| <= MAX_FILENAME_LENGTH && Tidy(s)
  {
    if SanitizeFilename(s) == s {
      SanitizedIsSafe(s);
      SanitizedAgain(s);
    } else if s != "" && |s| <= MAX_FILENAME_LENGTH && Tidy(s) {
      SanitizedAgain(s);
    }
  }

  /** Where replacing the unsafe characters already gives a tidy name, that is all that happens. */
  lemma OnlyUnsafeReplaced(s: string)
    requires 1 <= |s| <= MAX_FILENAME_LENGTH && Tidy(ReplaceUnsafe(s))
    requires forall i :: 0 <= i < |s| ==> s[i] != '\0' && s[i] != '/' && s[i] != '\\'
    ensures SanitizeFilename(s) == ReplaceUnsafe(s)
  {
    NothingToDrop(s, '\0');
    NothingToDrop(s, '/');
    NothingToDrop(s, '\\');
    assert PosixName(s) == s by { assert ReplaceUnsafe(s)[0] == '_' || s[0] != '.'; }
    NothingToCollapse(ReplaceUnsafe(s));
  }

  lemma {:induction false} DropNulConcat(a: string, b: string)
    ensures DropNul(a + b) == DropNul(a) + DropNul(b)
  {
    if b == "" {
      assert a + b == a;
    } else {
      DropNulConcat(a, b[..|b| - 1]);
      assert (a + b)[..|a + b| - 1] == a + b[..|b| - 1];
    }
  }

  lemma {:induction false} AfterLastOfConcat(dir: string, base: string, mark: char)
    requires forall i :: 0 <= i < |base| ==> base[i] != mark
    ensures AfterLast(dir + [mark] + base, mark) == base
  {
    var s := dir + [mark] + base;
    if base != "" {
      AfterLastOfConcat(dir, base[..|base| - 1], mark);
      assert s[..|s| - 1] == dir + [mark] + base[..|base| - 1];
    }
  }

  /** Whatever directories stand before a path that names something, they leave no trace. */
  lemma {:induction false} DirectoriesAreDropped(dir: string, path: string)
    requires PosixName(DropNul(path)) != ""
    ensures SanitizeFilename(dir + "/" + path) == SanitizeFilename(path)
  {
    DropNulOfJoin(dir, path, '/');
    PosixNameOfJoin(DropNul(dir), DropNul(path));
    hide DropNul, PosixName, SanitizeFilename;
    SameBaseName(dir + "/" + path, path);
  }

  lemma {:induction false} DropNulOfJoin(a: string, b: string, mark: char)
    requires mark != '\0'
    ensures DropNul(a + [mark] + b) == DropNul(a) + [mark] + DropNul(b)
  {
    DropNulConcat(a + [mark], b);
    DropNulConcat(a, [mark]);
    assert [mark][..0] == "";
  }

  /** The same holds of a Windows path, and even of one whose folders look like POSIX directories. */
  lemma {:induction false} FoldersAreDropped(folder: string, base: string)
    requires forall i :: 0 <= i < |base| ==> base[i] != '\0' && base[i] != '/' && base[i] != '\\'
    ensures SanitizeFilename(folder + "\\" + base) == SanitizeFilename(base)
  {
    BaseNameOfFolder(folder, base);
    BaseNameOfPlain(base);
    hide BaseName, SanitizeFilename, StripDotsLeft;
    LoneDot();
    SameBaseName(folder + "\\" + base, base);
  }

  lemma LoneDot()
    ensures StripDotsLeft(".") == StripDotsLeft("")
  {
    assert "."[1..] == "";
  }

  lemma {:induction false} SameBaseName(s: string, t: string)
    requires StripDotsLeft(BaseName(s)) == StripDotsLeft(BaseName(t))
    ensures SanitizeFilename(s) == SanitizeFilename(t)
  {
    hide BaseName, StripDotsLeft, ReplaceUnsafe, Collapse, StripLeft, StripRight;
  }

  lemma {:induction false} BaseNameOfFolder(folder: string, base: string)
    requires forall i :: 0 <= i < |base| ==> base[i] != '\0' && base[i] != '/' && base[i] != '\\'
    ensures BaseName(folder + "\\" + base) == base
  {
    DropNulOfJoin(folder, base, '\\');
    NothingToDrop(base, '\0');
    BackslashName(DropNul(folder), base);
    hide DropNul, AfterLast, PosixName;
  }

  lemma {:induction false} BaseNameOfPlain(base: string)
    requires forall i :: 0 <= i < |base| ==> base[i] != '\0' && base[i] != '/' && base[i] != '\\'
    ensures BaseName(base) == if base == "." then "" else base
  {
    NothingToDrop(base, '\0');
    NothingToDrop(base, '/');
    NothingToDrop(base, '\\');
  }

  /** The last POSIX component of folder\base ends in \base. */
  lemma {:induction false} BackslashName(folder: string, base: string)
    requires forall i :: 0 <= i < |base| ==> base[i] != '/' && base[i] != '\\'
    ensures AfterLast(PosixName(folder + "\\" + base), '\\') == base
  {
    var tail := AfterLast(folder, '/');
    AfterLastAppends(folder, "\\" + base, '/');
    AfterLastOfConcat(tail, base, '\\');
    hide AfterLast;
    var last := tail + "\\" + base;
    assert folder + ("\\" + base) == folder + "\\" + base && tail + ("\\" + base) == last;
    assert last[|tail|] == '\\' && last != "" && last != ".";
  }

  lemma {:induction false} AfterLastAppends(a: string, b: string, mark: char)
    requires forall i :: 0 <= i < |b| ==> b[i] != mark
    ensures AfterLast(a + b, mark) == AfterLast(a, mark) + b
  {
    if b == "" {
      assert a + b == a;
    } else {
      AfterLastAppends(a, b[..|b| - 1], mark);
      assert (a + b)[..|a + b| - 1] == a + b[..|b| - 1];
    }
  }

  /** NUL characters are as if they were not there. */
  lemma NulsAreIgnored(s: string)
    ensures SanitizeFilename(s) == SanitizeFilename(DropNul(s))
  {
    DropNulIsClean(s);
    NothingToDrop(DropNul(s), '\0');
  }

  lemma {:induction false} DropNulIsClean(s: string)
    ensures forall i :: 0 <= i < |DropNul(s)| ==> DropNul(s)[i] != '\0'
  {
    if s != "" {
      DropNulIsClean(s[..|s| - 1]);
    }
  }

  /** The same in terms of the input: a NUL anywhere changes nothing. */
  lemma NulIsDropped(a: string, b: string)
    ensures SanitizeFilename(a + "\0" + b) == SanitizeFilename(a + b)
  {
    hide SanitizeFilename, BaseName, StripDotsLeft;
    DropNulConcat(a + "\0", b);
    DropNulConcat(a, "\0");
    DropNulConcat(a, b);
    LoneNul();
    assert DropNul(a + "\0" + b) == DropNul(a + b);
    SameBaseIfSameDrop(a + "\0" + b, a + b);
  }

  lemma LoneNul()
    ensures DropNul("\0") == ""
  {
    assert "\0"[..0] == "";
  }

  lemma SameBaseIfSameDrop(s: string, t: string)
    requires DropNul(s) == DropNul(t)
    ensures SanitizeFilename(s) == SanitizeFilename(t)
  {
    hide DropNul, PosixName, AfterLast, SanitizeFilename;
    SameBaseName(s, t);
  }

  /** A slash at the end, or a slash and a dot, changes nothing. */
  lemma TrailingSlashIgnored(path: string)
    ensures SanitizeFilename(path + "/") == SanitizeFilename(path) == SanitizeFilename(path + "/.")
  {
    hide SanitizeFilename, DropNul, PosixName, AfterLast, StripDotsLeft;
    NamesNothing();
    DropNulOfJoin(path, "", '/');
    DropNulOfJoin(path, ".", '/');
    assert path + "/" + "" == path + "/" && path + "/" + "." == path + "/.";
    PosixNameOfJoin(DropNul(path), "");
    PosixNameOfJoin(DropNul(path), ".");
    SameBaseName(path + "/", path);
    SameBaseName(path + "/.", path);
  }

  lemma NamesNothing()
    ensures PosixName("") == "" && PosixName(".") == "" && DropNul("") == "" && DropNul(".") == "."
  {
    PlainDot();
    assert "."[..0] == "";
  }

  lemma PlainDot()
    ensures AfterLast(".", '/') == "." && AfterLast("", '/') == ""
  {
    assert "."[..0] == "";
  }

  // ---------------------------------------------------------------------------------------
  // What becomes of what is not plain
  // ---------------------------------------------------------------------------------------

  /** The characters that may stand in a sanitised name. */
  lemma SafeCharacters(c: char)
    ensures IsSafe(c) <==> c in "ABCDEFGHIJKLMNOPQRSTUVWXYZ" || c in "abcdefghijklmnopqrstuvwxyz" || c in "0123456789"
                           || c in "_.-"
    ensures IsSep(c) <==> c in "_."
  {
    InRange(c, 'A', "ABCDEFGHIJKLMNOPQRSTUVWXYZ");
    InRange(c, 'a', "abcdefghijklmnopqrstuvwxyz");
    InRange(c, '0', "0123456789");
  }

  /** A text of consecutive characters holds exactly those from its first to its last. */
  lemma InRange(c: char, first: char, text: string)
    requires text != "" && (first as int + |text|) < 0x80
    requires forall i :: 0 <= i < |text| ==> text[i] as int == first as int + i
    ensures c in text <==> first <= c && c as int < first as int + |text|
  {
    if first <= c && c as int < first as int + |text| {
      assert text[c as int - first as int] == c;
    }
  }

  /** Neither a path mark nor a character that is kept as it is. */
  predicate IsGap(c: char) {
    c != '\0' && c != '/' && c != '\\' && (IsSep(c) || !IsSafe(c))
  }

  /** Separators between two words: more than one becomes "_", a single one stays. */
  lemma {:induction false} CollapseOfJoin(a: string, m: string, b: string)
    requires NoAdjacentSeps(a) && (a == "" || EndsPlain(a)) && StartsPlain(b) && NoAdjacentSeps(b)
    requires m != "" && forall i :: 0 <= i < |m| ==> IsSep(m[i])
    ensures Collapse(a + m + b) == a + (if |m| == 1 then m else "_") + b
    decreases |a|
  {
    hide Collapse, SepRun;
    var s := a + m + b;
    if a == "" {
      assert s == m + b;
      CollapseGapThen(m, b);
    } else {
      assert s[0] == a[0] && s[1..] == a[1..] + m + b;
      if IsSep(a[0]) {
        assert |a| >= 2 && !IsSep(a[1]) && s[1] == a[1];
      }
      CollapseOfJoin(a[1..], m, b);
      CollapseStep(s);
    }
  }

  /** A character that does not start a run of separators stays. */
  lemma CollapseStep(s: string)
    requires |s| >= 2 && !(IsSep(s[0]) && IsSep(s[1]))
    ensures Collapse(s) == [s[0]] + Collapse(s[1..])
  {
    assert SepRun(s) <= 1;
  }

  lemma CollapseGapThen(m: string, b: string)
    requires m != "" && StartsPlain(b) && NoAdjacentSeps(b) && forall i :: 0 <= i < |m| ==> IsSep(m[i])
    ensures Collapse(m + b) == (if |m| == 1 then m else "_") + b
  {
    RunLength(m, b);
    NothingToCollapse(b);
    assert (m + b)[|m|..] == b;
  }

  lemma {:induction false} RunLength(m: string, b: string)
    requires StartsPlain(b) && forall i :: 0 <= i < |m| ==> IsSep(m[i])
    ensures SepRun(m + b) == |m|
  {
    if m == "" {
      assert m + b == b;
    } else {
      RunLength(m[1..], b);
      assert (m + b)[1..] == m[1..] + b;
    }
  }

  /**
    What stands between two tidy words, be it separators or unsafe characters, becomes a single "_";
    only a single separator stays as it is.
   */
  lemma {:induction false} GapBecomesUnderscore(a: string, m: string, b: string)
    requires a != "" && b != "" && Tidy(a) && Tidy(b) && |a| + 1 + |b| <= 255
    requires m != "" && forall i :: 0 <= i < |m| ==> IsGap(m[i])
    ensures SanitizeFilename(a + m + b) == if |m| == 1 && IsSep(m[0]) then a + m + b else a + "_" + b
  {
    hide BaseName, StripDotsLeft, Collapse, StripLeft, StripRight;
    var m' := ReplaceUnsafe(m);
    WordsAndGaps(a, m, b);
    CollapseOfJoin(a, m', b);
    var gap := if |m'| == 1 then m' else "_";
    var t := a + gap + b;
    Unstripped(t);
    assert Tidied(a + m + b) == t;
    hide Tidied;
    assert gap == if |m| == 1 && IsSep(m[0]) then m else "_";
  }

  lemma Unstripped(t: string)
    requires t != "" && !IsSep(t[0]) && !IsSep(t[|t| - 1])
    ensures StripRight(StripLeft(t)) == t
  {
  }

  /** Up to the replacement of unsafe characters nothing else happens to words with gaps between. */
  lemma WordsAndGaps(a: string, m: string, b: string)
    requires a != "" && b != "" && Tidy(a) && Tidy(b)
    requires m != "" && forall i :: 0 <= i < |m| ==> IsGap(m[i])
    ensures BaseName(a + m + b) == a + m + b && StripDotsLeft(a + m + b) == a + m + b
    ensures ReplaceUnsafe(a + m + b) == a + ReplaceUnsafe(m) + b
  {
    hide BaseName, Tidy, IsSafe, ReplaceUnsafe;
    TidyIsPlain(a);
    TidyIsPlain(b);
    var s := a + m + b;
    NoMarks(a, m, b);
    BaseNameOfPlain(s);
    assert |s| >= 3 && s[0] == a[0];
    ReplaceJoin(a, m, b);
  }

  lemma TidyIsPlain(a: string)
    requires a != "" && Tidy(a)
    ensures a[0] != '.' && forall i :: 0 <= i < |a| ==> IsSafe(a[i])
    ensures forall i :: 0 <= i < |a| ==> a[i] != '\0' && a[i] != '/' && a[i] != '\\'
  {
  }

  lemma NoMarks(a: string, m: string, b: string)
    requires forall i :: 0 <= i < |a| ==> a[i] != '\0' && a[i] != '/' && a[i] != '\\'
    requires forall i :: 0 <= i < |b| ==> b[i] != '\0' && b[i] != '/' && b[i] != '\\'
    requires forall i :: 0 <= i < |m| ==> IsGap(m[i])
    ensures
      var s := a + m + b;
      forall i :: 0 <= i < |s| ==> s[i] != '\0' && s[i] != '/' && s[i] != '\\'
  {
    hide IsSafe, IsSep;
  }

  lemma ReplaceJoin(a: string, m: string, b: string)
    requires (forall i :: 0 <= i < |a| ==> IsSafe(a[i])) && forall i :: 0 <= i < |b| ==> IsSafe(b[i])
    ensures ReplaceUnsafe(a + m + b) == a + ReplaceUnsafe(m) + b
  {
    hide IsSafe;
  }

  lemma {:induction false} StripDotsOfGap(m: string, x: string) returns (k: nat)
    requires x != "" && x[0] != '.'
    ensures k <= |m| && StripDotsLeft(m + x) == m[k..] + x
  {
    var s := m + x;
    if m != "" && m[0] == '.' {
      assert s[1..] == m[1..] + x;
      var rest := StripDotsOfGap(m[1..], x);
      k := rest + 1;
    } else {
      k := 0;
      assert m == "" ==> s == x;
    }
  }

  /** A leading run of separators collapses on its own. */
  lemma CollapseLeading(m: string, x: string)
    requires x != "" && !IsSep(x[0]) && OnlySeps(m)
    ensures Collapse(m + x) == (if |m| <= 1 then m else "_") + Collapse(x)
  {
    RunLength(m, x);
    if m == "" {
      assert m + x == x;
    } else {
      assert (m + x)[|m|..] == x;
    }
  }

  lemma {:induction false} StripLeftOfJoin(m: string, x: string)
    requires OnlySeps(m) && x != "" && !IsSep(x[0])
    ensures StripLeft(m + x) == x
  {
    if m == "" {
      assert m + x == x;
    } else {
      assert (m + x)[1..] == m[1..] + x;
      StripLeftOfJoin(m[1..], x);
    }
  }

  lemma {:induction false} StripRightOfJoin(x: string, m: string)
    requires OnlySeps(m) && x != "" && !IsSep(x[|x| - 1])
    ensures StripRight(x + m) == x
  {
    if m == "" {
      assert x + m == x;
    } else {
      assert (x + m)[..|x + m| - 1] == x + m[..|m| - 1];
      StripRightOfJoin(x, m[..|m| - 1]);
    }
  }

  /** Gaps before and after a tidy word go. */
  lemma {:induction false} EdgesAreStripped(m: string, a: string, n: string)
    requires a != "" && Tidy(a) && |a| <= 255
    requires forall i :: 0 <= i < |m| ==> IsGap(m[i])
    requires forall i :: 0 <= i < |n| ==> IsGap(n[i])
    ensures SanitizeFilename(m + a + n) == a
  {
    hide BaseName, StripDotsLeft, Collapse, StripLeft, StripRight, ReplaceUnsafe, Tidy, IsSafe, Tidied;
    TidyIsPlain(a);
    var s, x := m + a + n, a + n;
    GapsHaveNoMarks(m, a, n);
    BaseNameOfPlain(s);
    assert s == m + x && |s| >= 1 && (|s| == 1 ==> s == a);
    var k := StripDotsOfGap(m, x);
    TidiedEdges(m[k..], a, n);
    TidiedIs(s, m[k..] + x);
  }

  lemma GapsHaveNoMarks(m: string, a: string, n: string)
    requires forall i :: 0 <= i < |m| ==> IsGap(m[i])
    requires forall i :: 0 <= i < |n| ==> IsGap(n[i])
    requires forall i :: 0 <= i < |a| ==> a[i] != '\0' && a[i] != '/' && a[i] != '\\'
    ensures
      var s := m + a + n;
      forall i :: 0 <= i < |s| ==> s[i] != '\0' && s[i] != '/' && s[i] != '\\'
  {
    hide IsSafe, IsSep;
  }

  lemma TidiedIs(s: string, u: string)
    requires StripDotsLeft(BaseName(s)) == u
    ensures Tidied(s) == StripRight(StripLeft(Collapse(ReplaceUnsafe(u))))
  {
  }

  /** The steps after the leading dots, on a tidy word between gaps. */
  lemma {:induction false} TidiedEdges(m: string, a: string, n: string)
    requires a != "" && Tidy(a)
    requires forall i :: 0 <= i < |m| ==> IsGap(m[i])
    requires forall i :: 0 <= i < |n| ==> IsGap(n[i])
    ensures StripRight(StripLeft(Collapse(ReplaceUnsafe(m + (a + n))))) == a
  {
    hide Collapse, StripLeft, StripRight, IsSafe;
    var m', n' := ReplaceUnsafe(m), ReplaceUnsafe(n);
    assert ReplaceUnsafe(m + (a + n)) == m' + (a + n');
    CollapseLeading(m', a + n');
    var before := if |m'| <= 1 then m' else "_";
    var after := if |n'| <= 1 then n' else "_";
    CollapseTrailing(a, n');
    StripLeftOfJoin(before, a + after);
    StripRightOfJoin(a, after);
  }

  lemma CollapseTrailing(a: string, n: string)
    requires a != "" && Tidy(a) && OnlySeps(n)
    ensures Collapse(a + n) == a + (if |n| <= 1 then n else "_")
  {
    hide Collapse;
    if n == "" {
      assert a + n == a;
      NothingToCollapse(a);
    } else {
      CollapseOfJoin(a, n, "");
      assert a + n + "" == a + n;
    }
  }

  /** The base name holds nothing but separators and unsafe characters. */
  predicate NothingPlain(s: string) {
    forall i :: 0 <= i < |s| ==> IsSep(s[i]) || !IsSafe(s[i])
  }

  predicate OnlySeps(s: string) {
    forall i :: 0 <= i < |s| ==> IsSep(s[i])
  }

  lemma {:induction false} StripDotsKeeps(s: string)
    ensures NothingPlain(StripDotsLeft(s)) <==> NothingPlain(s)
  {
    if s != "" && s[0] == '.' {
      StripDotsKeeps(s[1..]);
      assert forall i :: 0 < i < |s| ==> s[i] == s[1..][i - 1];
    }
  }

  lemma {:induction false} CollapseOfSeps(s: string)
    ensures OnlySeps(Collapse(s)) <==> OnlySeps(s)
    decreases |s|
  {
    if s != "" {
      var n := SepRun(s);
      var k := if n <= 1 then 1 else n;
      var first, rest := if n <= 1 then [s[0]] else "_", s[k..];
      assert Collapse(s) == first + Collapse(rest);
      CollapseOfSeps(rest);
      hide Collapse, SepRun;
      SepsConcat(first, Collapse(rest));
      SepsConcat(s[..k], rest);
      assert s == s[..k] + rest;
      assert OnlySeps(first) <==> OnlySeps(s[..k]);
    }
  }

  lemma SepsConcat(a: string, b: string)
    ensures OnlySeps(a + b) <==> OnlySeps(a) && OnlySeps(b)
  {
    if OnlySeps(a + b) {
      assert forall i :: 0 <= i < |a| ==> (a + b)[i] == a[i];
      assert forall i :: 0 <= i < |b| ==> (a + b)[|a| + i] == b[i];
    }
  }

  lemma {:induction false} StripLeftOfSeps(s: string)
    ensures StripLeft(s) == "" <==> OnlySeps(s)
  {
    if s != "" && IsSep(s[0]) {
      StripLeftOfSeps(s[1..]);
      assert forall i :: 0 < i < |s| ==> s[i] == s[1..][i - 1];
    }
  }

  lemma {:induction false} StripRightOfPlain(s: string)
    requires s != "" && !IsSep(s[0])
    ensures StripRight(s) != ""
  {
    if IsSep(s[|s| - 1]) {
      StripRightOfPlain(s[..|s| - 1]);
    }
  }

  lemma {:induction false} StripLeftStartsPlain(s: string)
    ensures StripLeft(s) != "" ==> !IsSep(StripLeft(s)[0])
  {
    if s != "" && IsSep(s[0]) {
      StripLeftStartsPlain(s[1..]);
    }
  }

  /** Nothing is left exactly when the base name holds nothing plain, and then the name is "unnamed". */
  lemma {:induction false} UnnamedExactly(s: string)
    ensures Tidied(s) == "" <==> NothingPlain(BaseName(s))
    ensures NothingPlain(BaseName(s)) ==> SanitizeFilename(s) == "unnamed"
  {
    var plain := StripDotsLeft(BaseName(s));
    var replaced := ReplaceUnsafe(plain);
    StripDotsKeeps(BaseName(s));
    hide BaseName, StripDotsLeft;
    assert OnlySeps(replaced) <==> NothingPlain(plain);
    CollapseOfSeps(replaced);
    var left := StripLeft(Collapse(replaced));
    StripLeftOfSeps(Collapse(replaced));
    StripLeftStartsPlain(Collapse(replaced));
    if left != "" {
      StripRightOfPlain(left);
    }
  }

  /** A name that needs no tidying is cut to its first 255 characters; any other is a front part of the tidied one. */
  lemma {:induction false} CutToFront(s: string)
    requires s != "" && Tidy(s)
    ensures SanitizeFilename(s) == if |s| <= 255 then s else s[..255]
  {
    TidiedOfSafe(s);
    assert StripRight(s) == s;
  }

  lemma FrontOfTidied(s: string)
    requires Tidied(s) != ""
    ensures SanitizeFilename(s) <= Tidied(s)
    ensures |SanitizeFilename(s)| == if |Tidied(s)| <= 255 then |Tidied(s)| else 255
  {
    hide Tidied;
  }
}
