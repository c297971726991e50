/**
 * Node's `path` module as far as the walk and the generators use it.
 * A path is the sequence of its segments: `path.join(dir, name)` is `dir + [name]`
 * and `path.dirname(p)` drops the last segment.
 */
module Paths {
  import opened Wrappers

  type Path = seq<string>

  /** `path.dirname`: the directory that holds `p`. */
  function Dirname(p: Path): Path {
    if p == [] then [] else p[..|p| - 1]
  }

  /** `path.basename`: the last segment of `p`. */
  function Basename(p: Path): string {
    if p == [] then "" else p[|p| - 1]
  }

  /** `root` is `p` itself or one of its ancestors. */
  predicate Within(p: Path, root: Path) {
    |root| <= |p| && p[..|root|] == root
  }

  /** Index of the last '.' in `s`, if any. */
  function LastDot(s: string): (r: Option<nat>)
    ensures r.Some? ==> r.value < |s|
  {
    if s == [] then None
    else if s[|s| - 1] == '.' then Some(|s| - 1)
    else LastDot(s[..|s| - 1])
  }

  /** `LastDot` finds a dot with no dot after it, and finds none only when there is none. */
  lemma {:induction false} LastDotIsLast(s: string)
    ensures var r := LastDot(s);
      && (r.Some? ==> s[r.value] == '.' && forall j :: r.value < j < |s| ==> s[j] != '.')
      && (r.None? ==> forall j :: 0 <= j < |s| ==> s[j] != '.')
  {
    if s != [] && s[|s| - 1] != '.' {
      LastDotIsLast(s[..|s| - 1]);
    }
  }

  /** A dot with no dot after it is the last dot. */
  lemma LastDotAt(s: string, d: nat)
    requires d < |s| && s[d] == '.' && forall j :: d < j < |s| ==> s[j] != '.'
    ensures LastDot(s) == Some(d)
  {
    LastDotIsLast(s);
  }

  /**
   * `path.extname` of a file name (a directory listing never yields a separator
   * inside a name): from the last '.' to the end, except that a name whose only
   * dot is its first character (".bashrc") and the name ".." have no extension.
   */
  function Extname(name: string): string {
    match LastDot(name)
    case None => ""
    case Some(d) => if d == 0 || name == ".." then "" else name[d..]
  }

  /** Upper-case ASCII letters mapped to lower case, everything else kept. */
  function LowerChar(c: char): char {
    if 'A' <= c <= 'Z' then (c as int - 'A' as int + 'a' as int) as char else c
  }

  /** `String.prototype.toLowerCase` restricted to ASCII letters. */
  function ToLowerAscii(s: string): (r: string)
    ensures |r| == |s|
  {
    if s == [] then [] else [LowerChar(s[0])] + ToLowerAscii(s[1..])
  }

  /** Lower-casing works character by character. */
  lemma {:induction false} ToLowerAsciiAt(s: string)
    ensures forall i :: 0 <= i < |s| ==> ToLowerAscii(s)[i] == LowerChar(s[i])
  {
    if s != [] {
      ToLowerAsciiAt(s[1..]);
    }
  }

  /** `s` ends with `suffix` and has at least one character in front of it. */
  predicate EndsAfterStem(s: string, suffix: string) {
    |s| > |suffix| && s[|s| - |suffix|..] == suffix
  }

  /**
   * An extension that starts with a dot and has no other dot is the
   * extension of exactly the names that end with it after a non-empty stem.
   */
  lemma {:induction false} ExtnameIs(name: string, ext: string)
    requires |ext| >= 2 && ext[0] == '.' && forall j :: 1 <= j < |ext| ==> ext[j] != '.'
    ensures Extname(name) == ext <==> EndsAfterStem(name, ext)
  {
    LastDotIsLast(name);
    if EndsAfterStem(name, ext) {
      var d := |name| - |ext|;
      assert name[d] == '.';
      assert forall j :: d < j < |name| ==> name[j] == ext[j - d];
      match LastDot(name)
      case None => assert false;
      case Some(e) =>
        assert e == d;
        assert |name| > 2;
        assert name[d..] == ext;
    }
    if Extname(name) == ext {
      match LastDot(name)
      case None => assert false;
      case Some(d) =>
        assert d != 0;
        assert name[d..] == ext;
    }
  }

  /** Lower-casing keeps every dot where it was and adds none. */
  lemma {:induction false} LastDotLower(s: string)
    ensures LastDot(ToLowerAscii(s)) == LastDot(s)
  {
    if s != [] {
      var t := ToLowerAscii(s);
      ToLowerAsciiAt(s);
      ToLowerAsciiAt(s[..|s| - 1]);
      assert t[..|t| - 1] == ToLowerAscii(s[..|s| - 1]);
      LastDotLower(s[..|s| - 1]);
    }
  }

  /** The extension of the lower-cased name is the lower-cased extension. */
  lemma ExtnameLower(name: string)
    ensures Extname(ToLowerAscii(name)) == ToLowerAscii(Extname(name))
  {
    LastDotLower(name);
    var t := ToLowerAscii(name);
    ToLowerAsciiAt(name);
    assert (t == "..") == (name == "..");
    match LastDot(name)
    case None =>
    case Some(d) =>
      ToLowerAsciiAt(name[d..]);
      assert t[d..] == ToLowerAscii(name[d..]);
  }
}
