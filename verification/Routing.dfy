/**
 Which source a lake file belongs to. A job lists each source's prefix, hands
 files to mappings by prefix, and looks the source up again by prefix when it
 parses a file; the three agree because validated prefixes never overlap.
 */
module Routing {
  import opened Text
  import opened Config
  import opened Validation

  type Listing = string -> Result<seq<string>, string>

  /** The keys under a prefix, as an object store lists them. */
  ghost predicate ListsPrefixes(list: Listing) {
    forall prefix | list(prefix).Ok? :: forall k | k in list(prefix).value :: StartsWith(k, prefix)
  }

  predicate Accepts(source: SourceContainer, key: string) {
    exists ext | ext in source.format.Extensions() :: EndsWith(key, ext)
  }

  /** A CSV source reads `.csv` files, a JSON source three kinds. */
  lemma AcceptsByName(source: SourceContainer, key: string)
    ensures Accepts(source, key) <==>
            if source.format.Csv? then HasSuffix(key, ".csv")
            else HasSuffix(key, ".json") || HasSuffix(key, ".jsonl") || HasSuffix(key, ".ndjson")
  {
    var exts := source.format.Extensions();
    SuffixIffEnds(key, ".csv");
    SuffixIffEnds(key, ".json");
    SuffixIffEnds(key, ".jsonl");
    SuffixIffEnds(key, ".ndjson");
    assert source.format.Csv? ==> forall e :: e in exts <==> e == ".csv";
    assert source.format.Ndjson? ==> forall e :: e in exts <==> e == ".json" || e == ".jsonl" || e == ".ndjson";
  }

  /** Some source listed the key, under its own prefix, and reads files named so. */
  ghost predicate Wanted(sources: seq<SourceContainer>, list: Listing, key: string) {
    exists s | s in sources ::
      list(s.pathPrefix).Ok? && key in list(s.pathPrefix).value
      && if s.format.Csv? then HasSuffix(key, ".csv") else HasSuffix(key, ".json") || HasSuffix(key, ".jsonl") || HasSuffix(key, ".ndjson")
  }

  lemma WantedIff(sources: seq<SourceContainer>, list: Listing, key: string)
    ensures Wanted(sources, list, key) <==> exists s | s in sources :: ListedBy(s, list, key)
  {
    forall s | s in sources { AcceptsByName(s, key); }
  }

  predicate ListedBy(source: SourceContainer, list: Listing, key: string) {
    list(source.pathPrefix).Ok? && key in list(source.pathPrefix).value && Accepts(source, key)
  }

  /** The keys a job downloads: each source's, and each key once. A listing
      that fails is skipped. */
  method CandidateKeys(sources: seq<SourceContainer>, list: Listing) returns (keys: seq<string>)
    ensures NoRepeats(keys)
    ensures forall k :: k in keys <==> Wanted(sources, list, k)
    ensures forall k :: k in keys <==> exists s | s in sources :: ListedBy(s, list, k)
  {
    forall k { WantedIff(sources, list, k); }
    keys := [];
    var seen: set<string> := {};
    for i := 0 to |sources|
      invariant NoRepeats(keys) && forall k :: k in seen <==> k in keys
      invariant forall k :: k in keys <==> exists s | s in sources[..i] :: ListedBy(s, list, k)
    {
      var source := sources[i];
      ghost var before := keys;
      assert sources[..i + 1] == sources[..i] + [source];
      var listed := list(source.pathPrefix);
      if listed.Ok? {
        for j := 0 to |listed.value|
          invariant NoRepeats(keys) && forall k :: k in seen <==> k in keys
          invariant forall k :: k in keys <==> k in before || (k in listed.value[..j] && Accepts(source, k))
        {
          var key := listed.value[j];
          assert listed.value[..j + 1] == listed.value[..j] + [key];
          if Accepts(source, key) && key !in seen {
            seen := seen + {key};
            keys := keys + [key];
          }
        }
        assert listed.value[..|listed.value|] == listed.value;
      }
      assert forall k :: k in keys <==> k in before || ListedBy(source, list, k);
    }
    assert sources[..|sources|] == sources;
  }

  /** `resolve_source_container`: the first source whose prefix the key has. */
  function ResolveSource(sources: seq<SourceContainer>, key: string): Option<SourceContainer> {
    if sources == [] then None
    else if StartsWith(key, sources[0].pathPrefix) then Some(sources[0])
    else ResolveSource(sources[1..], key)
  }

  lemma {:induction false} ResolvesFirst(sources: seq<SourceContainer>, key: string, i: nat)
    requires i < |sources| && StartsWith(key, sources[i].pathPrefix)
    requires forall k | 0 <= k < i :: !StartsWith(key, sources[k].pathPrefix)
    ensures ResolveSource(sources, key) == Some(sources[i])
  {
    if i > 0 { ResolvesFirst(sources[1..], key, i - 1); }
  }

  /** Of the prefixes of a valid config, a key has at most one. */
  lemma PrefixesDisjoint(cfg: PipelineConfig, i: nat, j: nat, key: string)
    requires Valid(cfg) && i < |cfg.sources| && j < |cfg.sources|
    requires StartsWith(key, cfg.sources[i].pathPrefix) && StartsWith(key, cfg.sources[j].pathPrefix)
    ensures i == j
  {
    var a, b := cfg.sources[i].pathPrefix, cfg.sources[j].pathPrefix;
    OneInOther(a, b, key);
    NonEmptyPrefix(cfg, i);
    NonEmptyPrefix(cfg, j);
    NotNested(cfg, i, j);
    NotNested(cfg, j, i);
  }

  lemma NoPrefixProblem(cfg: PipelineConfig, i: nat, e: ConfigError)
    requires Valid(cfg)
    ensures !PrefixProblem(cfg.sources, i, e)
  {
    assert !ConfigProblem(cfg, e);
  }

  lemma NonEmptyPrefix(cfg: PipelineConfig, i: nat)
    requires Valid(cfg) && i < |cfg.sources|
    ensures cfg.sources[i].pathPrefix != ""
  {
    NoPrefixProblem(cfg, i, MissingField(PrefixAt(i), "path_prefix"));
  }

  lemma NotNested(cfg: PipelineConfig, i: nat, j: nat)
    requires Valid(cfg) && i < |cfg.sources| && j < |cfg.sources|
    ensures i != j && cfg.sources[i].pathPrefix != "" ==> !StartsWith(cfg.sources[j].pathPrefix, cfg.sources[i].pathPrefix)
  {
    var a, b := cfg.sources[i], cfg.sources[j];
    var e := Schema(PrefixAt(j), NestedPrefix(b.pathPrefix, a.pathPrefix, a.id));
    assert !ConfigProblem(cfg, e);
    assert !NestingProblem(cfg.sources, i, j, e);
  }

  /** `mapping_files`: what a mapping is given of the files that were downloaded. */
  function FilesFor(source: SourceContainer, downloaded: seq<string>): (files: seq<string>)
    ensures forall k :: k in files <==> k in downloaded && source.pathPrefix <= k
  {
    if downloaded == [] then []
    else (if StartsWith(downloaded[0], source.pathPrefix) then [downloaded[0]] else [])
         + FilesFor(source, downloaded[1..])
  }

  /** Files keep the order they were downloaded in. */
  lemma {:induction false} FilesInOrder(source: SourceContainer, a: seq<string>, b: seq<string>)
    ensures FilesFor(source, a + b) == FilesFor(source, a) + FilesFor(source, b)
  {
    if a == [] {
      assert a + b == b;
    } else {
      assert (a + b)[1..] == a[1..] + b;
      FilesInOrder(source, a[1..], b);
    }
  }

  /** Every file a mapping is given resolves to the mapping's own source, was
      listed by it, and has one of its extensions. */
  lemma FilesGoHome(cfg: PipelineConfig, list: Listing, keys: seq<string>, downloaded: seq<string>, m: Mapping,
                    key: string)
    requires Valid(cfg) && ListsPrefixes(list)
    requires forall k :: k in keys <==> exists s | s in cfg.sources :: ListedBy(s, list, k)
    requires forall k | k in downloaded :: k in keys
    requires FindSource(cfg.sources, m.sourceId).Some?
    requires key in FilesFor(FindSource(cfg.sources, m.sourceId).value, downloaded)
    ensures var source := FindSource(cfg.sources, m.sourceId).value;
            && ResolveSource(cfg.sources, key) == Some(source)
            && Accepts(source, key) && ListedBy(source, list, key)
  {
    var source := FindSource(cfg.sources, m.sourceId).value;
    var i :| 0 <= i < |cfg.sources| && cfg.sources[i] == source;
    var s :| s in cfg.sources && ListedBy(s, list, key);
    var j :| 0 <= j < |cfg.sources| && cfg.sources[j] == s;
    PrefixesDisjoint(cfg, i, j, key);
    forall k | 0 <= k < i ensures !StartsWith(key, cfg.sources[k].pathPrefix) {
      if StartsWith(key, cfg.sources[k].pathPrefix) { PrefixesDisjoint(cfg, k, i, key); }
    }
    ResolvesFirst(cfg.sources, key, i);
  }

  /** No downloaded file goes to the mappings of two sources. */
  lemma FilesGoOnce(cfg: PipelineConfig, i: nat, j: nat, downloaded: seq<string>, key: string)
    requires Valid(cfg) && i < |cfg.sources| && j < |cfg.sources|
    requires key in FilesFor(cfg.sources[i], downloaded) && key in FilesFor(cfg.sources[j], downloaded)
    ensures i == j
  {
    PrefixesDisjoint(cfg, i, j, key);
  }
}
