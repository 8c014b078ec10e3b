/** The parts of Python's `posixpath` and `str` that the file classifiers rely on: `rfind`,
    `basename`, the extension `splitext` splits off, and lower-casing. */
module PathNames {

  /** `s.rfind(c)`: the index of the last `c` in `s`, or -1 when there is none. */
  function LastIndexOf(s: string, c: char): (r: int)
    decreases |s|
    ensures -1 <= r < |s|
    ensures r >= 0 ==> s[r] == c
    ensures forall j :: r < j < |s| ==> s[j] != c
  {
    if s == [] then -1
    else if s[|s| - 1] == c then |s| - 1
    else LastIndexOf(s[..|s| - 1], c)
  }

  /** Any index that holds `c` with no `c` after it (or -1 when `c` is absent) is what `rfind`
      returns. */
  lemma LastIndexOfIs(s: string, c: char, k: int)
    requires -1 <= k < |s| && (k >= 0 ==> s[k] == c)
    requires forall j :: k < j < |s| ==> s[j] != c
    ensures LastIndexOf(s, c) == k
  {
  }

  /** `posixpath.basename`: the text after the last '/'. */
  function Basename(p: string): (r: string)
    ensures '/' !in r
    ensures |r| <= |p| && p[|p| - |r|..] == r
    ensures |r| < |p| ==> p[|p| - |r| - 1] == '/'
  {
    var i := LastIndexOf(p, '/');
    AfterLastIndex(p, '/');
    p[i + 1..]
  }

  lemma AfterLastIndex(s: string, c: char)
    ensures c !in s[LastIndexOf(s, c) + 1..]
  {
    var i := LastIndexOf(s, c);
    var t := s[i + 1..];
    forall k | 0 <= k < |t| ensures t[k] != c {
      assert t[k] == s[i + 1 + k];
    }
  }

  /** The final path component has a character other than '.' strictly between the last '/'
      (index `sep`, -1 when absent) and index `dot`. */
  predicate HasStem(p: string, sep: int, dot: int)
    requires -1 <= sep && dot <= |p|
  {
    exists i :: sep < i < dot && p[i] != '.'
  }

  /** The second half of `posixpath.splitext(p)`: from the last '.' to the end, when that dot
      lies in the final path component and is preceded there by some character other than '.';
      otherwise empty (a name made of leading dots has no extension). */
  function Extension(p: string): (e: string)
    ensures e == [] || (e[0] == '.' && |e| <= |p| && p[|p| - |e|..] == e)
    ensures forall k :: 0 < k < |e| ==> e[k] != '.' && e[k] != '/'
  {
    var sep := LastIndexOf(p, '/');
    var dot := LastIndexOf(p, '.');
    if dot > sep && HasStem(p, sep, dot) then p[dot..] else []
  }

  /** `str.lower()`, restricted to ASCII letters. */
  function Lower(s: string): string {
    seq(|s|, i requires 0 <= i < |s| => if 'A' <= s[i] <= 'Z' then (s[i] as int + 32) as char else s[i])
  }

  /** The base name of a path ending in "/name" is `name` whatever the directory part holds. */
  lemma BasenameAfterSlash(dir: string, name: string)
    requires '/' !in name
    ensures Basename(dir + "/" + name) == name
  {
    var p := dir + "/" + name;
    assert p[|dir|] == '/';
    forall j | |dir| < j < |p| ensures p[j] != '/' {
      assert p[j] == name[j - |dir| - 1];
    }
    LastIndexOfIs(p, '/', |dir|);
    assert p[|dir| + 1..] == name;
  }

  /** A name "stem.ext" with a slash-free stem that is not only dots has extension ".ext". */
  lemma ExtensionOfName(stem: string, ext: string)
    requires '/' !in stem && exists i :: 0 <= i < |stem| && stem[i] != '.'
    requires |ext| >= 1 && ext[0] == '.' && forall k :: 0 < k < |ext| ==> ext[k] != '.' && ext[k] != '/'
    ensures Extension(stem + ext) == ext
  {
    var p := stem + ext;
    forall j | 0 <= j < |p| ensures p[j] != '/' {
      if j < |stem| {
        assert p[j] == stem[j];
      } else {
        assert p[j] == ext[j - |stem|];
      }
    }
    LastIndexOfIs(p, '/', -1);
    forall j | |stem| < j < |p| ensures p[j] != '.' {
      assert p[j] == ext[j - |stem|];
    }
    LastIndexOfIs(p, '.', |stem|);
    var i :| 0 <= i < |stem| && stem[i] != '.';
    assert p[i] == stem[i];
    assert HasStem(p, -1, |stem|);
    assert p[|stem|..] == ext;
  }

  /** The extension of "dir/name" is that of `name`: the dot search never reaches into the
      directory part, whatever dots it holds. */
  lemma ExtensionAfterSlash(dir: string, name: string)
    requires '/' !in name
    ensures Extension(dir + "/" + name) == Extension(name)
  {
    var p := dir + "/" + name;
    var off := |dir| + 1;
    LastIndexOfIs(name, '/', -1);
    var ln := LastIndexOf(name, '.');
    DotAfterSlash(dir, name);
    if ln >= 0 {
      StemAfterSlash(dir, name, ln);
      assert p[off + ln..] == name[ln..];
    }
  }

  lemma DotAfterSlash(dir: string, name: string)
    requires '/' !in name
    ensures var p, ln := dir + "/" + name, LastIndexOf(name, '.');
      LastIndexOf(p, '/') == |dir| &&
      (ln >= 0 ==> LastIndexOf(p, '.') == |dir| + 1 + ln) &&
      (ln < 0 ==> LastIndexOf(p, '.') <= |dir|)
  {
    var p := dir + "/" + name;
    var off := |dir| + 1;
    BasenameAfterSlash(dir, name);
    var ln := LastIndexOf(name, '.');
    forall j | off + ln < j < |p| ensures p[j] != '.' {
      assert p[j] == name[j - off];
    }
    if ln >= 0 {
      assert p[off + ln] == name[ln];
      LastIndexOfIs(p, '.', off + ln);
    }
  }

  lemma StemAfterSlash(dir: string, name: string, ln: int)
    requires 0 <= ln < |name|
    ensures HasStem(dir + "/" + name, |dir|, |dir| + 1 + ln) <==> HasStem(name, -1, ln)
  {
    var p := dir + "/" + name;
    var off := |dir| + 1;
    if HasStem(name, -1, ln) {
      var i :| -1 < i < ln && name[i] != '.';
      assert p[off + i] == name[i];
    }
    if HasStem(p, |dir|, off + ln) {
      var i :| |dir| < i < off + ln && p[i] != '.';
      assert name[i - off] == p[i];
    }
  }
}
