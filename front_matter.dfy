/**
  Front-matter normalisation (sync_docs.py, lines 189-203 of process_source_documents).
  A text that already starts with the marker "---" is kept as it is; any other text
  gets a header built from the source's default fields plus a generated `title`.
  `serialize` stands for `yaml.dump(value, default_flow_style=True).strip()`, whose
  output format is not part of this model.
 */
module FrontMatter {
  import opened Yaml
  import opened Paths
  import opened Title

  const MARKER: string := "---"

  /** `content.startswith("---")` */
  predicate StartsWithMarker(s: string) {
    |s| >= 3 && s[..3] == MARKER
  }

  /** `d[k] = v` on a dict: an existing key keeps its position and takes the new
      value, a new key goes to the end. */
  function DictSet(d: Entries, k: string, v: Value): (r: Entries)
  {
    if HasKey(d, k) then seq(|d|, i requires 0 <= i < |d| => if d[i].0 == k then (k, v) else d[i])
    else d + [(k, v)]
  }

  /** `d.update(src)`: each entry of src in order is set into d. */
  function UpdateWith(d: Entries, src: Entries): Entries
    decreases |src|
  {
    if |src| == 0 then d
    else DictSet(UpdateWith(d, src[..|src| - 1]), src[|src| - 1].0, src[|src| - 1].1)
  }

  /** The header fields: `new_fm = {}; new_fm.update(defaults)`, then `title` if absent. */
  function Merged(defaults: Entries, title: string): Entries {
    var fm := UpdateWith([], defaults);
    if HasKey(fm, "title") then fm else DictSet(fm, "title", Str(title))
  }

  /** One header line: `f"{key}: {serialized value}"`. */
  function KeyLine(e: (string, Value), serialize: Value -> string): string {
    e.0 + ": " + serialize(e.1)
  }

  /** One line per field, in the fields' order, each "key: serialized value". */
  function KeyLines(fm: Entries, serialize: Value -> string): (ls: seq<string>)
    ensures |ls| == |fm|
    ensures forall i :: 0 <= i < |fm| ==> ls[i] == fm[i].0 + ": " + serialize(fm[i].1)
  {
    seq(|fm|, i requires 0 <= i < |fm| => KeyLine(fm[i], serialize))
  }

  /** `"\n".join(lines)` */
  function JoinLines(lines: seq<string>): string
    decreases |lines|
  {
    if |lines| == 0 then ""
    else if |lines| == 1 then lines[0]
    else JoinLines(lines[..|lines| - 1]) + "\n" + lines[|lines| - 1]
  }

  /** The header block: the marker, one line per field, the marker, a blank line. */
  function HeaderBlock(fm: Entries, serialize: Value -> string): string {
    JoinLines([MARKER] + KeyLines(fm, serialize) + [MARKER]) + "\n\n"
  }

  /** The text written to the target for a source text `content` read through the
      file pattern `pattern`. */
  function Normalise(content: string, defaults: Entries, pattern: Path, serialize: Value -> string): string {
    if StartsWithMarker(content) then content
    else HeaderBlock(Merged(defaults, GenerateTitle(Basename(pattern))), serialize) + content
  }

  // ---------------------------------------------------------------------------
  // The imperative header construction, as the script performs it.

  /** Builds `new_fm` and `fm_lines` step by step and joins them. */
  method BuildHeader(defaults: Entries, title: string, serialize: Value -> string) returns (block: string)
    ensures block == HeaderBlock(Merged(defaults, title), serialize)
  {
    var newFm: Entries := [];
    for i := 0 to |defaults|
      invariant newFm == UpdateWith([], defaults[..i])
    {
      assert defaults[..i + 1][..i] == defaults[..i];
      newFm := DictSet(newFm, defaults[i].0, defaults[i].1);
    }
    assert defaults[..|defaults|] == defaults;
    if !HasKey(newFm, "title") {
      newFm := DictSet(newFm, "title", Str(title));
    }
    var fmLines := [MARKER];
    for i := 0 to |newFm|
      invariant fmLines == [MARKER] + KeyLines(newFm[..i], serialize)
    {
      fmLines := fmLines + [KeyLine(newFm[i], serialize)];
    }
    assert newFm[..|newFm|] == newFm;
    fmLines := fmLines + [MARKER];
    block := JoinLines(fmLines) + "\n\n";
  }

  /** The `final_content` computation for one file. */
  method NormaliseContent(content: string, defaults: Entries, pattern: Path, serialize: Value -> string)
    returns (finalContent: string)
    ensures finalContent == Normalise(content, defaults, pattern, serialize)
    ensures StartsWithMarker(finalContent)
    ensures finalContent[|finalContent| - |content|..] == content
  {
    finalContent := content;
    if !StartsWithMarker(content) {
      var block := BuildHeader(defaults, GenerateTitle(Basename(pattern)), serialize);
      finalContent := block + content;
    }
    NormaliseShape(content, defaults, pattern, serialize);
  }

  // ---------------------------------------------------------------------------
  // Properties of the header fields.

  lemma DictSetDistinct(d: Entries, k: string, v: Value)
    requires DistinctKeys(d)
    ensures DistinctKeys(DictSet(d, k, v))
    ensures HasKey(DictSet(d, k, v), k) && Get(DictSet(d, k, v), k) == v
    ensures forall k' :: k' != k ==> (HasKey(DictSet(d, k, v), k') <==> HasKey(d, k'))
    ensures forall k' :: k' != k && HasKey(d, k') ==> Get(DictSet(d, k, v), k') == Get(d, k')
  {
    var r := DictSet(d, k, v);
    assert |r| >= |d| && forall i :: 0 <= i < |d| ==> r[i].0 == d[i].0;
    forall k' | k' != k && HasKey(r, k') ensures HasKey(d, k') {
      var i :| 0 <= i < |r| && r[i].0 == k';
    }
    forall k' | k' != k && HasKey(d, k') ensures Get(r, k') == Get(d, k') {
      var i :| 0 <= i < |d| && d[i].0 == k';
      GetDistinct(d, i);
      GetDistinct(r, i);
    }
    var i :| 0 <= i < |r| && r[i].0 == k;
    GetDistinct(r, i);
  }

  /** Updating an empty dict gives a dict holding every key of the source, each with
      the value of its last occurrence. */
  lemma {:induction false} UpdateWithEmpty(src: Entries)
    ensures DistinctKeys(UpdateWith([], src))
    ensures forall k :: HasKey(UpdateWith([], src), k) <==> HasKey(src, k)
    ensures forall k :: HasKey(src, k) ==> Get(UpdateWith([], src), k) == Get(src, k)
    decreases |src|
  {
    if |src| > 0 {
      var n := |src| - 1;
      var prefix := src[..n];
      UpdateWithEmpty(prefix);
      DictSetDistinct(UpdateWith([], prefix), src[n].0, src[n].1);
      forall k ensures HasKey(src, k) <==> HasKey(prefix, k) || k == src[n].0 {
        if HasKey(src, k) && k != src[n].0 {
          var i :| 0 <= i < |src| && src[i].0 == k;
          assert prefix[i].0 == k;
        }
        if HasKey(prefix, k) {
          var i :| 0 <= i < n && prefix[i].0 == k;
          assert src[i].0 == k;
        }
      }
      forall k | HasKey(src, k) && k != src[n].0 ensures Get(src, k) == Get(prefix, k) {
        assert src[n].0 != k;
      }
    }
  }

  /** Updating an empty dict with a dict reproduces it: same keys, same order. */
  lemma {:induction false} UpdateWithDict(src: Entries)
    requires DistinctKeys(src)
    ensures UpdateWith([], src) == src
    decreases |src|
  {
    if |src| > 0 {
      var n := |src| - 1;
      var prefix := src[..n];
      UpdateWithDict(prefix);
      assert !HasKey(prefix, src[n].0) by {
        forall i | 0 <= i < n ensures prefix[i].0 != src[n].0 { assert prefix[i] == src[i]; }
      }
      assert prefix + [src[n]] == src;
    }
  }

  /** For a dict of defaults: the header fields are the defaults in their own order,
      followed by the generated title only when the defaults hold no `title`. */
  lemma MergedOfDict(defaults: Entries, title: string)
    requires DistinctKeys(defaults)
    ensures Merged(defaults, title) ==
              if HasKey(defaults, "title") then defaults else defaults + [("title", Str(title))]
  {
    UpdateWithDict(defaults);
  }

  /** Whatever the defaults: `title` occurs exactly once, a default title is never
      replaced by the generated one, every default key is present with its value,
      and no other key appears. */
  lemma MergedFields(defaults: Entries, title: string)
    ensures DistinctKeys(Merged(defaults, title))
    ensures HasKey(Merged(defaults, title), "title")
    ensures Get(Merged(defaults, title), "title") ==
              if HasKey(defaults, "title") then Get(defaults, "title") else Str(title)
    ensures forall k :: HasKey(Merged(defaults, title), k) <==> HasKey(defaults, k) || k == "title"
    ensures forall k :: HasKey(defaults, k) ==> Get(Merged(defaults, title), k) == Get(defaults, k)
  {
    UpdateWithEmpty(defaults);
    var fm := UpdateWith([], defaults);
    if !HasKey(fm, "title") {
      DictSetDistinct(fm, "title", Str(title));
    }
  }

  // ---------------------------------------------------------------------------
  // Properties of the written text.

  /** The lines of a header, each followed by a newline. */
  function Terminated(lines: seq<string>): string
    decreases |lines|
  {
    if |lines| == 0 then "" else Terminated(lines[..|lines| - 1]) + lines[|lines| - 1] + "\n"
  }

  lemma JoinLinesFramed(lines: seq<string>)
    ensures JoinLines([MARKER] + lines + [MARKER]) == MARKER + "\n" + Terminated(lines) + MARKER
  {
    var all := [MARKER] + lines + [MARKER];
    assert all[..|all| - 1] == [MARKER] + lines;
    if |lines| == 0 {
      assert all == [MARKER, MARKER];
    } else {
      JoinLinesOpen(lines);
    }
  }

  lemma {:induction false} JoinLinesOpen(lines: seq<string>)
    requires lines != []
    ensures JoinLines([MARKER] + lines) + "\n" == MARKER + "\n" + Terminated(lines)
    decreases |lines|
  {
    var n := |lines| - 1;
    assert ([MARKER] + lines)[..n + 1] == [MARKER] + lines[..n];
    if n > 0 {
      JoinLinesOpen(lines[..n]);
    } else {
      assert [MARKER] + lines[..n] == [MARKER];
    }
  }

  /** The header is the marker line, one `key: value` line per field in order, the
      marker line and a blank line. */
  lemma HeaderBlockShape(fm: Entries, serialize: Value -> string)
    ensures HeaderBlock(fm, serialize) == "---\n" + Terminated(KeyLines(fm, serialize)) + "---\n\n"
  {
    JoinLinesFramed(KeyLines(fm, serialize));
  }

  /** The written text: unchanged when it already starts with the marker, otherwise the
      header followed by the untouched original. Either way it starts with the marker
      and ends with the original text. */
  lemma NormaliseShape(content: string, defaults: Entries, pattern: Path, serialize: Value -> string)
    ensures var out := Normalise(content, defaults, pattern, serialize);
            && StartsWithMarker(out)
            && |out| >= |content| && out[|out| - |content|..] == content
            && (StartsWithMarker(content) ==> out == content)
            && (!StartsWithMarker(content) ==>
                  out == "---\n" + Terminated(KeyLines(Merged(defaults, GenerateTitle(Basename(pattern))), serialize))
                         + "---\n\n" + content)
  {
    var fm := Merged(defaults, GenerateTitle(Basename(pattern)));
    HeaderBlockShape(fm, serialize);
    var out := Normalise(content, defaults, pattern, serialize);
    if !StartsWithMarker(content) {
      var body := Terminated(KeyLines(fm, serialize)) + "---\n\n";
      assert out == "---\n" + body + content;
      assert out[..3] == MARKER;
    }
  }

  /** Normalising an already-normalised text changes nothing. */
  lemma NormaliseIdempotent(content: string, defaults: Entries, pattern: Path, serialize: Value -> string)
    ensures var once := Normalise(content, defaults, pattern, serialize);
            Normalise(once, defaults, pattern, serialize) == once
  {
    NormaliseShape(content, defaults, pattern, serialize);
  }
}
