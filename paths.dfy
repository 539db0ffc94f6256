/**
 * The extension test of the exporter: `os.path.splitext(filename)[1][1:]`
 * for POSIX paths, as a pure function on strings.
 *
 * `splitext` looks at the last '.' of the path; that dot starts the
 * extension only when it lies in the last path component (after the last
 * '/') and that component has some character other than '.' before it, so
 * that a name made only of leading dots plus text (".bashrc", "..x") has no
 * extension. The `[1:]` drops the dot itself.
 */
module Paths {

  /** Index of the last occurrence of `c` among the first `n` characters of `s`, or -1 when there is none. */
  function LastIndexBefore(s: string, c: char, n: nat): (i: int)
    requires n <= |s|
    ensures -1 <= i < n
    ensures i >= 0 ==> s[i] == c
    ensures forall k :: i < k < n ==> s[k] != c
  {
    if n == 0 then -1
    else if s[n - 1] == c then n - 1
    else LastIndexBefore(s, c, n - 1)
  }

  /** Index of the last occurrence of `c` in `s`, or -1 when there is none (`str.rfind`). */
  function LastIndexOf(s: string, c: char): (i: int)
    ensures -1 <= i < |s|
    ensures i >= 0 ==> s[i] == c
    ensures forall k :: i < k < |s| ==> s[k] != c
  {
    LastIndexBefore(s, c, |s|)
  }

  predicate AllDots(s: string) {
    forall k :: 0 <= k < |s| ==> s[k] == '.'
  }

  /** The last path component: what follows the last '/'. */
  function Basename(path: string): string {
    path[LastIndexOf(path, '/') + 1..]
  }

  /**
   * The extension of `name` without its dot, "" when it has none.
   * ExtensionShape and ExtensionOfSplit state what it is.
   */
  function Extension(name: string): string {
    var sep := LastIndexOf(name, '/');
    var dot := LastIndexOf(name, '.');
    if sep < dot && !AllDots(name[sep + 1..dot]) then name[dot + 1..] else ""
  }

  /**
   * An extension holds no '.' and no '/', and a non-empty one is the end of
   * the name, right after a '.'.
   */
  lemma ExtensionShape(name: string)
    ensures var ext := Extension(name);
      && '.' !in ext && '/' !in ext
      && (ext != "" ==> |ext| < |name| && name[|name| - |ext| - 1] == '.' && name[|name| - |ext|..] == ext)
  {
    var sep := LastIndexOf(name, '/');
    var dot := LastIndexOf(name, '.');
    if sep < dot && !AllDots(name[sep + 1..dot]) {
      var ext := name[dot + 1..];
      assert forall k :: 0 <= k < |ext| ==> ext[k] == name[dot + 1 + k];
    }
  }

  /**
   * The last index is the one index that holds `c` with no `c` after it, or
   * -1 when no index holds `c`.
   */
  lemma LastIndexUnique(s: string, c: char, i: int)
    requires -1 <= i < |s|
    requires i >= 0 ==> s[i] == c
    requires forall k :: i < k < |s| ==> s[k] != c
    ensures LastIndexOf(s, c) == i
  {
  }

  /** A character that does not occur has no last index. */
  lemma LastIndexAbsent(s: string, c: char)
    requires c !in s
    ensures LastIndexOf(s, c) == -1
  {
    LastIndexUnique(s, c, -1);
  }

  /** A character that does not occur after a prefix leaves the prefix's last index in place. */
  lemma LastIndexInPrefix(s: string, t: string, c: char)
    requires c !in t
    ensures LastIndexOf(s + t, c) == LastIndexOf(s, c)
  {
    var i := LastIndexOf(s, c);
    forall k | i < k < |s + t| ensures (s + t)[k] != c {
      if k < |s| {
        assert (s + t)[k] == s[k];
      } else {
        assert (s + t)[k] == t[k - |s|];
      }
    }
    if i >= 0 {
      assert (s + t)[i] == s[i];
    }
    LastIndexUnique(s + t, c, i);
  }

  /** In `stem + "." + ext` with no dot in `ext`, the dot after the stem is the last one. */
  lemma LastDotOfSplit(stem: string, ext: string)
    requires '.' !in ext
    ensures LastIndexOf(stem + "." + ext, '.') == |stem|
  {
    var name := stem + "." + ext;
    assert name[|stem|] == '.';
    forall k | |stem| < k < |name| ensures name[k] != '.' {
      assert name[k] == ext[k - |stem| - 1];
    }
    LastIndexUnique(name, '.', |stem|);
  }

  /**
   * What `splitext` yields for a name with a dot: writing the name as
   * `stem + "." + ext` with the last dot, `ext` is the extension exactly when
   * the stem's last component holds a character other than '.', and there
   * is no extension otherwise.
   */
  lemma ExtensionOfSplit(stem: string, ext: string)
    requires '.' !in ext && '/' !in ext
    ensures Extension(stem + "." + ext) == if AllDots(Basename(stem)) then "" else ext
  {
    var name := stem + "." + ext;
    assert name == stem + ("." + ext);
    LastDotOfSplit(stem, ext);
    LastIndexInPrefix(stem, "." + ext, '/');
    var sep := LastIndexOf(stem, '/');
    assert name[sep + 1..|stem|] == Basename(stem);
    assert name[|stem| + 1..] == ext;
  }

  /** A name without a dot has no extension. */
  lemma ExtensionWithoutDot(name: string)
    requires '.' !in name
    ensures Extension(name) == ""
  {
    LastIndexAbsent(name, '.');
  }

  /** The cases the extension filter meets most: a plain name, a hidden file, a name ending in '.'. */
  lemma ExtensionOfPlainName()
    ensures Extension("cat.jpg") == "jpg"
  {
    LastIndexUnique("cat.jpg", '/', -1);
    LastIndexUnique("cat.jpg", '.', 3);
    assert "cat.jpg"[0..3][0] == 'c';
    assert "cat.jpg"[4..] == "jpg";
  }

  lemma ExtensionOfDoubleSuffix()
    ensures Extension("archive.tar.gz") == "gz"
  {
    LastIndexUnique("archive.tar.gz", '/', -1);
    LastIndexUnique("archive.tar.gz", '.', 11);
    assert "archive.tar.gz"[0..11][0] == 'a';
    assert "archive.tar.gz"[12..] == "gz";
  }

  lemma ExtensionOfHiddenName()
    ensures Extension(".hidden") == ""
  {
    LastIndexUnique(".hidden", '/', -1);
    LastIndexUnique(".hidden", '.', 0);
  }

  lemma ExtensionOfLeadingDots()
    ensures Extension("..x") == ""
  {
    LastIndexUnique("..x", '/', -1);
    LastIndexUnique("..x", '.', 1);
    assert "..x"[0..1] == ".";
  }

  lemma ExtensionOfTrailingDot()
    ensures Extension("name.") == ""
  {
    LastIndexUnique("name.", '/', -1);
    LastIndexUnique("name.", '.', 4);
    assert "name."[0..4][0] == 'n';
    assert "name."[5..] == "";
  }

  lemma ExtensionOfDottedDirectory()
    ensures Extension("dir.d/file") == ""
  {
    LastIndexUnique("dir.d/file", '/', 5);
    LastIndexUnique("dir.d/file", '.', 3);
  }
}
