/**
  Title generation from a file name (sync_docs.py, generate_title_from_filename):
  drop the extension, turn '_' and '-' into spaces, then apply str.title().
  Characters are ASCII; a letter is the only cased character.
 */
module Title {
  import opened Paths

  predicate IsLetter(c: char) {
    ('a' <= c <= 'z') || ('A' <= c <= 'Z')
  }

  function Upper(c: char): (r: char)
    ensures IsLetter(c) ==> 'A' <= r <= 'Z'
  {
    if 'a' <= c <= 'z' then (c as int - 32) as char else c
  }

  function Lower(c: char): (r: char)
    ensures IsLetter(c) ==> 'a' <= r <= 'z'
  {
    if 'A' <= c <= 'Z' then (c as int + 32) as char else c
  }

  /** `s.replace(from, to)` for single characters. */
  function Replace(s: string, from: char, to: char): (r: string)
    ensures |r| == |s|
    ensures forall i :: 0 <= i < |s| ==> r[i] == if s[i] == from then to else s[i]
  {
    seq(|s|, i requires 0 <= i < |s| => if s[i] == from then to else s[i])
  }

  /** str.title() on s[i..], scanning left to right with the "previous character
      was cased" flag. */
  function TitleFrom(s: string, i: nat, previousCased: bool): (r: string)
    requires i <= |s|
    ensures |r| == |s| - i
    decreases |s| - i
  {
    if i == |s| then ""
    else
      var c := s[i];
      var mapped := if !IsLetter(c) then c else if previousCased then Lower(c) else Upper(c);
      [mapped] + TitleFrom(s, i + 1, IsLetter(c))
  }

  function TitleCase(s: string): (r: string)
    ensures |r| == |s|
  {
    TitleFrom(s, 0, false)
  }

  /** Each position of a title-cased string: a letter is upper-cased exactly when it
      starts the scan or follows a non-letter, every other letter is lower-cased,
      and non-letters are kept. */
  lemma {:induction false} TitleFromAt(s: string, i: nat, previousCased: bool, k: nat)
    requires i <= k < |s|
    ensures var wordStart := if k == i then !previousCased else !IsLetter(s[k - 1]);
            TitleFrom(s, i, previousCased)[k - i] ==
              if !IsLetter(s[k]) then s[k] else if wordStart then Upper(s[k]) else Lower(s[k])
    decreases k - i
  {
    if k > i {
      TitleFromAt(s, i + 1, IsLetter(s[i]), k);
    }
  }

  lemma TitleCaseAt(s: string, i: nat)
    requires i < |s|
    ensures |TitleCase(s)| == |s|
    ensures TitleCase(s)[i] ==
              if !IsLetter(s[i]) then s[i]
              else if i == 0 || !IsLetter(s[i - 1]) then Upper(s[i]) else Lower(s[i])
  {
    TitleFromAt(s, 0, false, i);
  }

  /** generate_title_from_filename */
  function GenerateTitle(filename: string): (title: string)
    ensures |title| == |SplitExt(filename).0|
  {
    TitleCase(Replace(Replace(SplitExt(filename).0, '_', ' '), '-', ' '))
  }

  /** The generated title never contains '_' or '-', and at each position it holds
      the title-cased, space-separated character of the extension-less name. */
  lemma GenerateTitleAt(filename: string, i: nat)
    requires i < |SplitExt(filename).0|
    ensures var base := SplitExt(filename).0;
            var spaced := Replace(Replace(base, '_', ' '), '-', ' ');
            && spaced[i] == (if base[i] == '_' || base[i] == '-' then ' ' else base[i])
            && GenerateTitle(filename)[i] ==
                 (if !IsLetter(spaced[i]) then spaced[i]
                  else if i == 0 || !IsLetter(spaced[i - 1]) then Upper(spaced[i]) else Lower(spaced[i]))
            && GenerateTitle(filename)[i] != '_' && GenerateTitle(filename)[i] != '-'
  {
    var base := SplitExt(filename).0;
    TitleCaseAt(Replace(Replace(base, '_', ' '), '-', ' '), i);
  }

  /** The example the function's documentation gives. */
  lemma MyCoolDocExample()
    ensures GenerateTitle("my_cool-Doc.md") == "My Cool Doc"
  {
    var p := "my_cool-Doc.md";
    assert LastIndex(p, SEP) == -1;
    assert LastIndex(p, '.') == 11;
    assert p[0] != '.';
    assert SplitExt(p).0 == "my_cool-Doc";
    SpacedExample();
    TitleExample();
  }

  lemma SpacedExample()
    ensures Replace(Replace("my_cool-Doc", '_', ' '), '-', ' ') == "my cool Doc"
  {
    var once := Replace("my_cool-Doc", '_', ' ');
    assert once == "my cool-Doc" by {
      forall i | 0 <= i < 11 ensures once[i] == "my cool-Doc"[i] { }
    }
    var twice := Replace(once, '-', ' ');
    forall i | 0 <= i < 11 ensures twice[i] == "my cool Doc"[i] { }
  }

  lemma TitleExample()
    ensures TitleCase("my cool Doc") == "My Cool Doc"
  {
    var s := "my cool Doc";
    assert TitleFrom(s, 7, true) == " Doc";
    assert TitleFrom(s, 2, true) == " Cool Doc";
  }
}
