/**
  The shape check run on the loaded configuration before anything is synchronised
  (sync_docs.py, validate_config).  ConfigValid states the accepted shapes
  declaratively; ValidateConfig walks the sources and document sets the way the
  script does, returning at the first violation.
 */
module ConfigValidation {
  import opened Yaml

  /** The keys every source must carry. */
  predicate HasSourceKeys(m: Entries) {
    HasKey(m, "id") && HasKey(m, "name") && HasKey(m, "repo_url") && HasKey(m, "branch") &&
    HasKey(m, "documents")
  }

  /** The keys every document set must carry. */
  predicate HasDocSetKeys(m: Entries) {
    HasKey(m, "target_dir") && HasKey(m, "base_repo_path") && HasKey(m, "markdown_files") &&
    HasKey(m, "image_dirs")
  }

  predicate ValidDocSet(d: Value) {
    && d.Map?
    && HasDocSetKeys(d.entries)
    && Get(d.entries, "markdown_files").List?
    && Get(d.entries, "image_dirs").List?
  }

  predicate ValidSource(s: Value) {
    && s.Map?
    && HasSourceKeys(s.entries)
    && (HasKey(s.entries, "default_front_matter") ==> Get(s.entries, "default_front_matter").Map?)
    && Get(s.entries, "documents").List?
    && |Get(s.entries, "documents").items| > 0
    && forall j :: 0 <= j < |Get(s.entries, "documents").items| ==>
                     ValidDocSet(Get(s.entries, "documents").items[j])
  }

  predicate ConfigValid(c: Value) {
    && c.Map?
    && HasKey(c.entries, "processed_docs_root") && Get(c.entries, "processed_docs_root").Str?
    && HasKey(c.entries, "sources") && Get(c.entries, "sources").List?
    && forall i :: 0 <= i < |Get(c.entries, "sources").items| ==>
                     ValidSource(Get(c.entries, "sources").items[i])
  }

  /** One document set, as the inner loop body checks it. */
  method CheckDocSet(d: Value) returns (ok: bool)
    ensures ok == ValidDocSet(d)
  {
    if !d.Map? { return false; }
    if !HasDocSetKeys(d.entries) { return false; }
    if !Get(d.entries, "markdown_files").List? { return false; }
    if !Get(d.entries, "image_dirs").List? { return false; }
    return true;
  }

  /** One source, with the loop over its document sets. */
  method CheckSource(s: Value) returns (ok: bool)
    ensures ok == ValidSource(s)
  {
    if !s.Map? { return false; }
    if !HasSourceKeys(s.entries) { return false; }
    if HasKey(s.entries, "default_front_matter") && !Get(s.entries, "default_front_matter").Map? {
      return false;
    }
    var documents := Get(s.entries, "documents");
    if !documents.List? || |documents.items| == 0 { return false; }
    for j := 0 to |documents.items|
      invariant forall k :: 0 <= k < j ==> ValidDocSet(documents.items[k])
    {
      var docOk := CheckDocSet(documents.items[j]);
      if !docOk { return false; }
    }
    return true;
  }

  /** validate_config: true exactly when the configuration has the accepted shape. */
  method ValidateConfig(config: Value) returns (ok: bool)
    ensures ok == ConfigValid(config)
  {
    if !config.Map? { return false; }
    if !HasKey(config.entries, "processed_docs_root") || !Get(config.entries, "processed_docs_root").Str? {
      return false;
    }
    if !HasKey(config.entries, "sources") || !Get(config.entries, "sources").List? {
      return false;
    }
    var sources := Get(config.entries, "sources").items;
    for i := 0 to |sources|
      invariant forall k :: 0 <= k < i ==> ValidSource(sources[k])
    {
      var sourceOk := CheckSource(sources[i]);
      if !sourceOk { return false; }
    }
    return true;
  }

  /** An empty `sources` list is accepted. */
  lemma EmptySourcesAccepted(root: string)
    ensures ConfigValid(Map([("processed_docs_root", Str(root)), ("sources", List([]))]))
  {
    var c := Map([("processed_docs_root", Str(root)), ("sources", List([]))]);
    assert c.entries[0].0 == "processed_docs_root";
    assert c.entries[1].0 == "sources";
  }

  /** A source whose `documents` list is empty is refused, whatever else it holds. */
  lemma EmptyDocumentsRefused(c: Value, i: nat)
    requires c.Map? && HasKey(c.entries, "sources") && Get(c.entries, "sources").List?
    requires i < |Get(c.entries, "sources").items|
    requires var s := Get(c.entries, "sources").items[i];
             s.Map? && HasKey(s.entries, "documents") && Get(s.entries, "documents") == List([])
    ensures !ConfigValid(c)
  {
  }
}
