/**
  The POSIX path helpers the synchroniser relies on (os.path.join with two
  arguments, basename, dirname, splitext, and str.strip of the separator), as
  functions on strings.
 */
module Paths {

  type Path = string

  const SEP: char := '/'

  /** `s.rfind(c)`: the last index holding c, or -1. */
  function LastIndex(s: string, c: char): (r: int)
    ensures -1 <= r < |s|
    ensures r >= 0 ==> s[r] == c
    ensures forall j :: r < j < |s| ==> s[j] != c
    decreases |s|
  {
    if |s| == 0 then -1
    else if s[|s| - 1] == c then |s| - 1
    else LastIndex(s[..|s| - 1], c)
  }

  /** os.path.join(a, b) */
  function Join(a: Path, b: Path): (r: Path)
    ensures |b| > 0 && b[0] == SEP ==> r == b
    ensures !(|b| > 0 && b[0] == SEP) ==> (r == a + [SEP] + b <==> |a| > 0 && a[|a| - 1] != SEP)
    ensures !(|b| > 0 && b[0] == SEP) && !(|a| > 0 && a[|a| - 1] != SEP) ==> r == a + b
  {
    if |b| > 0 && b[0] == SEP then b
    else if |a| == 0 || a[|a| - 1] == SEP then a + b
    else a + [SEP] + b
  }

  /** os.path.basename: everything after the last separator. */
  function Basename(p: Path): (r: Path)
    ensures SEP !in r
    ensures |r| <= |p| && p[|p| - |r|..] == r
    ensures |r| < |p| ==> p[|p| - |r| - 1] == SEP
  {
    p[LastIndex(p, SEP) + 1..]
  }

  /** `s.rstrip(c)` */
  function RStrip(s: string, c: char): (r: string)
    ensures |r| <= |s| && s[..|r|] == r
    ensures |r| == 0 || r[|r| - 1] != c
    ensures forall j :: |r| <= j < |s| ==> s[j] == c
    decreases |s|
  {
    if |s| > 0 && s[|s| - 1] == c then RStrip(s[..|s| - 1], c) else s
  }

  /** `s.lstrip(c)` */
  function LStrip(s: string, c: char): (r: string)
    ensures |r| <= |s| && s[|s| - |r|..] == r
    ensures |r| == 0 || r[0] != c
    ensures forall j :: 0 <= j < |s| - |r| ==> s[j] == c
    decreases |s|
  {
    if |s| > 0 && s[0] == c then LStrip(s[1..], c) else s
  }

  /** `s.strip(os.sep)`: the middle of s, after a run of separators and before
      another, with no separator left at either end. */
  function StripSep(s: string): (r: string)
    ensures |r| == 0 || (r[0] != SEP && r[|r| - 1] != SEP)
    ensures StrippedFrom(s, r)
  {
    var l := LStrip(s, SEP);
    var r := RStrip(l, SEP);
    StripSlices(s, l, r);
    r
  }

  /** A suffix l of s preceded by separators, and a prefix r of l followed by
      separators, make r a slice of s with separators on both sides. */
  lemma StripSlices(s: string, l: string, r: string)
    requires |l| <= |s| && s[|s| - |l|..] == l && forall j :: 0 <= j < |s| - |l| ==> s[j] == SEP
    requires |r| <= |l| && l[..|r|] == r && forall j :: |r| <= j < |l| ==> l[j] == SEP
    ensures StrippedFrom(s, r)
  {
    var i := |s| - |l|;
    assert AllSep(s[..i]) by {
      forall j | 0 <= j < i ensures s[..i][j] == SEP { assert s[..i][j] == s[j]; }
    }
    var t := s[i + |r|..];
    assert t == l[|r|..];
    assert AllSep(t) by {
      forall j | 0 <= j < |t| ensures t[j] == SEP { assert t[j] == l[|r| + j]; }
    }
    assert s[i..i + |r|] == l[..|r|];
  }

  /** r is a contiguous slice of s with only separators before and after it. */
  predicate StrippedFrom(s: string, r: string) {
    exists i :: 0 <= i <= |s| - |r| && r == s[i..i + |r|] && AllSep(s[..i]) && AllSep(s[i + |r|..])
  }

  predicate AllSep(s: string) {
    forall j :: 0 <= j < |s| ==> s[j] == SEP
  }

  /** os.path.dirname: the part up to the last separator, with trailing separators
      removed unless it consists of separators only. */
  function DirName(p: Path): (r: Path)
  {
    var head := p[..LastIndex(p, SEP) + 1];
    if |head| > 0 && !AllSep(head) then RStrip(head, SEP) else head
  }

  /** The directory part is a prefix of the path separated from the basename by
      separators only; it is empty exactly when the path has no separator; and it
      keeps a trailing separator only when it is made of separators, in which case
      it reaches the basename. */
  lemma DirNameParts(p: Path)
    ensures var r := DirName(p);
            |r| + |Basename(p)| <= |p| && p[..|r|] == r
    ensures var r := DirName(p);
            AllSep(p[|r|..|p| - |Basename(p)|])
    ensures DirName(p) == "" <==> SEP !in p
    ensures var r := DirName(p);
            |r| > 0 && r[|r| - 1] == SEP ==> AllSep(r)
    ensures var r := DirName(p);
            |r| > 0 && AllSep(r) ==> |r| + |Basename(p)| == |p|
  {
  }

  /** os.path.splitext: (root, ext) where ext starts at the last dot of the last
      component, provided some character other than a dot comes before that dot
      in the component; otherwise ext is empty. */
  function SplitExt(p: Path): (r: (Path, Path))
  {
    var sepIndex := LastIndex(p, SEP);
    var dotIndex := LastIndex(p, '.');
    if dotIndex > sepIndex && exists k :: sepIndex < k < dotIndex && p[k] != '.'
    then (p[..dotIndex], p[dotIndex..])
    else (p, "")
  }

  /** The root and the extension put back together give the path; a non-empty
      extension is one dot followed by neither dots nor separators, taken from the
      last dot on; and the extension is non-empty exactly when the last component
      has a dot somewhere after a character that is not a dot. */
  lemma SplitExtParts(p: Path)
    ensures SplitExt(p).0 + SplitExt(p).1 == p
    ensures var ext := SplitExt(p).1;
            ext == "" || (ext[0] == '.' && forall j :: 1 <= j < |ext| ==> ext[j] != '.' && ext[j] != SEP)
    ensures SplitExt(p).1 != "" ==> SplitExt(p).1 == p[LastIndex(p, '.')..]
    ensures SplitExt(p).1 != "" <==>
            exists k, d :: LastIndex(p, SEP) < k < d < |p| && p[k] != '.' && p[d] == '.'
  {
    var sepIndex := LastIndex(p, SEP);
    var dotIndex := LastIndex(p, '.');
    if exists k, d :: sepIndex < k < d < |p| && p[k] != '.' && p[d] == '.' {
      var k, d :| sepIndex < k < d < |p| && p[k] != '.' && p[d] == '.';
      assert d <= dotIndex;
    }
    if dotIndex > sepIndex && exists k :: sepIndex < k < dotIndex && p[k] != '.' {
      var k :| sepIndex < k < dotIndex && p[k] != '.';
      assert p[dotIndex] == '.';
      var ext := p[dotIndex..];
      assert p[..dotIndex] + ext == p;
      forall j | 1 <= j < |ext| ensures ext[j] != '.' && ext[j] != SEP {
        assert ext[j] == p[dotIndex + j];
      }
    }
  }

  /** A name made only of leading dots and one more part (".hidden") has no extension. */
  lemma SplitExtHidden(name: string)
    requires SEP !in name && '.' !in name
    ensures SplitExt("." + name) == ("." + name, "")
  {
    var p := "." + name;
    assert LastIndex(p, '.') == 0 by {
      assert p[0] == '.';
      forall j | 0 < j < |p| ensures p[j] != '.' { assert p[j] == name[j - 1]; }
    }
  }
}
