/** Which weight files a shard of a model needs: tensor names against a block
    range, the local cache check, and the file list of a selective download. */
module WeightSelection {
  import opened Bytes
  import opened Text

  const LAYERS := "model.layers."
  const EMBEDDING := "model.embed_tokens."
  const NORM := "model.norm."
  const HEAD := "lm_head."

  /** Blocks `[start, end)` and the shard's place in the chain. */
  datatype Shard = Shard(start: nat, end: nat, first: bool, last: bool)

  /** The block number in a layer tensor's name. */
  function LayerIndex(name: string): Option<nat>
    requires StartsWith(name, LAYERS)
  {
    var rest := name[|LAYERS|..];
    match Find(rest, '.')
    case None => None
    case Some(dot) => ParseUsize(rest[..dot])
  }

  /** `is_tensor_needed`. */
  predicate Needs(shard: Shard, name: string) {
    if StartsWith(name, LAYERS) then
      match LayerIndex(name)
      case None => false
      case Some(n) => shard.start <= n < shard.end
    else if StartsWith(name, EMBEDDING) then shard.first
    else if StartsWith(name, NORM) || StartsWith(name, HEAD) then shard.last
    else shard.first || shard.last
  }

  function LayerTensor(n: nat, suffix: string): string {
    LAYERS + Print(n) + "." + suffix
  }

  /** The name of every tensor of block `n` reads back as `n`. */
  lemma LayerTensorIndex(n: nat, suffix: string)
    requires n < USIZE
    ensures StartsWith(LayerTensor(n, suffix), LAYERS)
    ensures LayerIndex(LayerTensor(n, suffix)) == Some(n)
  {
    var digits := Print(n);
    var rest := LayerTensor(n, suffix)[|LAYERS|..];
    assert rest == digits + "." + suffix;
    assert rest[..|digits|] == digits;
    assert forall i :: 0 <= i < |digits| ==> IsDigit(digits[i]);
    FindFirst(rest, '.', |digits|);
    ParseOfPrint(n);
  }

  // ── A chain of shards ─────────────────────────────────────────────────────

  /** Boundaries of consecutive ranges that make up `[0, total)`. */
  ghost predicate Tiles(bounds: seq<nat>, total: nat) {
    && |bounds| >= 2 && bounds[0] == 0 && bounds[|bounds| - 1] == total
    && forall i, j :: 0 <= i <= j < |bounds| ==> bounds[i] <= bounds[j]
  }

  function ShardAt(bounds: seq<nat>, i: nat): Shard
    requires i + 1 < |bounds|
  {
    Shard(bounds[i], bounds[i + 1], i == 0, i + 2 == |bounds|)
  }

  lemma {:induction false} RangeOf(bounds: seq<nat>, n: nat, k: nat) returns (i: nat)
    requires 0 < k < |bounds| && bounds[0] <= n < bounds[k]
    ensures i + 1 < |bounds| && bounds[i] <= n < bounds[i + 1]
  {
    if bounds[k - 1] <= n { i := k - 1; } else { i := RangeOf(bounds, n, k - 1); }
  }

  /** Every block's tensors are needed by exactly one shard of the chain. */
  lemma LayerTensorNeededOnce(bounds: seq<nat>, total: nat, n: nat, suffix: string)
    requires Tiles(bounds, total) && n < total && n < USIZE
    ensures exists i: nat :: i + 1 < |bounds| && Needs(ShardAt(bounds, i), LayerTensor(n, suffix))
    ensures forall i: nat, j: nat :: i + 1 < |bounds| && j + 1 < |bounds|
              && Needs(ShardAt(bounds, i), LayerTensor(n, suffix)) && Needs(ShardAt(bounds, j), LayerTensor(n, suffix))
              ==> i == j
  {
    LayerTensorIndex(n, suffix);
    var i := RangeOf(bounds, n, |bounds| - 1);
    assert Needs(ShardAt(bounds, i), LayerTensor(n, suffix));
  }

  /** A name in the layer namespace that does not name a block of the model. */
  predicate Stray(name: string, total: nat) {
    StartsWith(name, LAYERS) && (LayerIndex(name).None? || LayerIndex(name).value >= total)
  }

  /** Any tensor name at all is needed by some shard of the chain exactly when it
      is not a stray layer name: no weight is forgotten, and malformed or
      out-of-range layer names are selected by nobody. */
  lemma NeededBySomeShardIff(bounds: seq<nat>, total: nat, name: string)
    requires Tiles(bounds, total)
    ensures (exists i: nat :: i + 1 < |bounds| && Needs(ShardAt(bounds, i), name)) <==> !Stray(name, total)
  {
    if StartsWith(name, LAYERS) {
      if !Stray(name, total) {
        var i := RangeOf(bounds, LayerIndex(name).value, |bounds| - 1);
        assert Needs(ShardAt(bounds, i), name);
      }
    } else if StartsWith(name, EMBEDDING) {
      assert Needs(ShardAt(bounds, 0), name);
    } else {
      assert Needs(ShardAt(bounds, |bounds| - 2), name);
    }
  }

  /** Outside the layers: embeddings go to the first shard only, norm and head to
      the last only, everything else to both ends. */
  lemma NonLayerPlacement(bounds: seq<nat>, total: nat, name: string, i: nat)
    requires Tiles(bounds, total) && i + 1 < |bounds|
    ensures forall rest :: Needs(ShardAt(bounds, i), EMBEDDING + rest) <==> i == 0
    ensures forall rest :: Needs(ShardAt(bounds, i), NORM + rest) <==> i + 2 == |bounds|
    ensures forall rest :: Needs(ShardAt(bounds, i), HEAD + rest) <==> i + 2 == |bounds|
    ensures !StartsWith(name, LAYERS) && !StartsWith(name, EMBEDDING)
            && !StartsWith(name, NORM) && !StartsWith(name, HEAD) ==>
              (Needs(ShardAt(bounds, i), name) <==> i == 0 || i + 2 == |bounds|)
  {
    forall rest: string
      ensures Needs(ShardAt(bounds, i), EMBEDDING + rest) <==> i == 0
      ensures Needs(ShardAt(bounds, i), NORM + rest) <==> i + 2 == |bounds|
      ensures Needs(ShardAt(bounds, i), HEAD + rest) <==> i + 2 == |bounds|
    {
      PrefixesDiffer(rest);
    }
  }

  lemma PrefixesDiffer(rest: string)
    ensures StartsWith(EMBEDDING + rest, EMBEDDING) && !StartsWith(EMBEDDING + rest, LAYERS)
    ensures StartsWith(NORM + rest, NORM) && !StartsWith(NORM + rest, LAYERS) && !StartsWith(NORM + rest, EMBEDDING)
    ensures StartsWith(HEAD + rest, HEAD) && !StartsWith(HEAD + rest, LAYERS) && !StartsWith(HEAD + rest, EMBEDDING)
  {
    assert (EMBEDDING + rest)[6] == 'e' && LAYERS[6] == 'l' && (NORM + rest)[6] == 'n' && EMBEDDING[6] == 'e';
    assert (HEAD + rest)[0] == 'l' && LAYERS[0] == 'm' && EMBEDDING[0] == 'm';
  }

  // ── Needed files ──────────────────────────────────────────────────────────

  /** The index of a model: tensor names to file names; a value that is not a
      string maps to None. */
  type WeightMap = map<string, Option<string>>

  datatype Index = Unreadable | NotJson | NoWeightMap | Indexed(weights: WeightMap)

  function NeededFiles(weights: WeightMap, shard: Shard): set<string> {
    set t | t in weights && Needs(shard, t) && weights[t].Some? :: weights[t].value
  }

  /** `blocks_are_cached`. `hasShards` is the check used for single-file models. */
  predicate BlocksAreCached(index: Index, present: set<string>, hasShards: bool, shard: Shard) {
    match index
    case Unreadable => false
    case NotJson => false
    case NoWeightMap => hasShards
    case Indexed(weights) => NeededFiles(weights, shard) <= present
  }

  /** The weight files a download asks for; none when there is no weight map. */
  function WeightFiles(index: Index, shard: Shard): set<string> {
    if index.Indexed? then NeededFiles(index.weights, shard) else {}
  }

  /** The loop of `download_for_blocks` over the weight map. */
  method CollectWeightFiles(index: Index, shard: Shard) returns (files: set<string>)
    ensures files == WeightFiles(index, shard)
  {
    files := {};
    if !index.Indexed? {
      return;
    }
    var weights := index.weights;
    var todo := weights.Keys;
    while todo != {}
      invariant todo <= weights.Keys
      invariant files == set t | t in weights && t !in todo && Needs(shard, t) && weights[t].Some? :: weights[t].value
      decreases todo
    {
      var t :| t in todo;
      todo := todo - {t};
      if weights[t].None? {
        continue;
      }
      if Needs(shard, t) {
        files := files + {weights[t].value};
      }
    }
  }

  predicate IsMetadata(file: string) {
    ToAsciiLowercase(file) in {
      "config.json", "generation_config.json", "tokenizer.json", "tokenizer_config.json",
      "special_tokens_map.json", "tokenizer.model", "model.safetensors.index.json"}
  }

  predicate IsSafeTensors(file: string) {
    EndsWith(ToAsciiLowercase(file), ".safetensors")
  }

  /** The filter over the repository's file list. */
  predicate Selected(weightFiles: set<string>, file: string) {
    IsMetadata(file) || (if weightFiles != {} then file in weightFiles else IsSafeTensors(file))
  }

  function SelectFiles(weightFiles: set<string>, siblings: seq<Option<string>>): seq<string> {
    if siblings == [] then []
    else
      (if siblings[0].Some? && Selected(weightFiles, siblings[0].value) then [siblings[0].value] else [])
      + SelectFiles(weightFiles, siblings[1..])
  }

  lemma {:induction false} SelectFilesIs(weightFiles: set<string>, siblings: seq<Option<string>>, file: string)
    ensures file in SelectFiles(weightFiles, siblings) <==> Some(file) in siblings && Selected(weightFiles, file)
  {
    if siblings != [] {
      SelectFilesIs(weightFiles, siblings[1..], file);
      assert siblings == [siblings[0]] + siblings[1..];
    }
  }

  ghost predicate NothingToFetch(weightFiles: set<string>, siblings: seq<Option<string>>, present: set<string>) {
    forall file :: file in SelectFiles(weightFiles, siblings) && !IsMetadata(file) ==> file in present
  }

  /** When the cache check passes, the selective download finds every weight file it
      selects already present exactly when the shard needs some listed file, or all
      SafeTensors files happen to be present: with an empty needed set the check
      passes vacuously, and without a weight map it passes on any one file, while
      the download falls back to all of them. */
  lemma CachedMeansNothingToFetchIff(
    index: Index, shard: Shard, siblings: seq<Option<string>>, present: set<string>, hasShards: bool)
    requires BlocksAreCached(index, present, hasShards, shard)
    ensures NothingToFetch(WeightFiles(index, shard), siblings, present)
       <==> WeightFiles(index, shard) != {}
            || forall file :: Some(file) in siblings && IsSafeTensors(file) && !IsMetadata(file) ==> file in present
  {
    var needed := WeightFiles(index, shard);
    forall file
      ensures file in SelectFiles(needed, siblings) <==> Some(file) in siblings && Selected(needed, file)
    {
      SelectFilesIs(needed, siblings, file);
    }
  }

  lemma IsWeightFile(file: string)
    requires file == "x.safetensors"
    ensures IsSafeTensors(file) && !IsMetadata(file)
  {
    assert ToAsciiLowercase(file) == file;
    assert file[1..] == ".safetensors";
    assert |file| == 13;
    assert |"config.json"| == 11 && |"generation_config.json"| == 22 && |"tokenizer.json"| == 14;
    assert |"tokenizer_config.json"| == 21 && |"special_tokens_map.json"| == 23;
    assert |"tokenizer.model"| == 15 && |"model.safetensors.index.json"| == 28;
  }

  /** An index that lists nothing for this shard, or has no weight map: cached, yet
      the file that is not there would be downloaded. */
  lemma CachedButFetches(index: Index, shard: Shard)
    requires index == Indexed(map[]) || index == NoWeightMap
    ensures exists siblings: seq<Option<string>>, present: set<string> ::
              && BlocksAreCached(index, present, true, shard)
              && !NothingToFetch(WeightFiles(index, shard), siblings, present)
  {
    var file := "x.safetensors";
    var siblings, present := [Some(file)], {"y.safetensors"};
    IsWeightFile(file);
    assert file[0] != "y.safetensors"[0];
    assert WeightFiles(index, shard) == {};
    assert siblings[0] == Some(file);
    CachedMeansNothingToFetchIff(index, shard, siblings, present, true);
    assert !NothingToFetch(WeightFiles(index, shard), siblings, present);
  }

  /** A completed selective download makes the check pass, provided the
      repository lists every file its index names. */
  lemma DownloadMakesCached(
    weights: WeightMap, shard: Shard, siblings: seq<Option<string>>, present: set<string>, hasShards: bool)
    requires forall file :: file in NeededFiles(weights, shard) ==> Some(file) in siblings
    ensures var fetched := set file | file in SelectFiles(NeededFiles(weights, shard), siblings);
            BlocksAreCached(Indexed(weights), present + fetched, hasShards, shard)
  {
    var needed := NeededFiles(weights, shard);
    forall file | file in needed
      ensures file in SelectFiles(needed, siblings)
    {
      SelectFilesIs(needed, siblings, file);
    }
  }

  /** The check, over tensors and files: an index that cannot be read or parsed never
      passes, one without a weight map passes on the single-file check, and any other
      passes exactly when the file of every needed tensor is present. */
  lemma CachedIff(index: Index, present: set<string>, hasShards: bool, shard: Shard)
    ensures BlocksAreCached(index, present, hasShards, shard)
       <==> match index
            case Unreadable => false
            case NotJson => false
            case NoWeightMap => hasShards
            case Indexed(weights) =>
              forall t, file :: t in weights && Needs(shard, t) && weights[t] == Some(file) ==> file in present
  {
    if index.Indexed? {
      forall file
        ensures file in NeededFiles(index.weights, shard)
           <==> exists t :: t in index.weights && Needs(shard, t) && index.weights[t] == Some(file)
      {
      }
    }
  }

  /** The small files are always fetched, whatever their case and whatever the index
      says. */
  lemma MetadataIsSelected(weightFiles: set<string>, siblings: seq<Option<string>>, file: string)
    requires Some(file) in siblings
    requires var lower := ToAsciiLowercase(file);
             || lower == "config.json" || lower == "generation_config.json" || lower == "tokenizer.json"
             || lower == "tokenizer_config.json" || lower == "special_tokens_map.json"
             || lower == "tokenizer.model" || lower == "model.safetensors.index.json"
    ensures file in SelectFiles(weightFiles, siblings)
  {
    SelectFilesIs(weightFiles, siblings, file);
  }

  /** The index names the file for a tensor the shard needs. */
  ghost predicate Named(index: Index, shard: Shard, file: string) {
    index.Indexed? && exists t :: t in index.weights && Needs(shard, t) && index.weights[t] == Some(file)
  }

  lemma WeightFilesAreNamed(index: Index, shard: Shard, file: string)
    ensures file in WeightFiles(index, shard) <==> Named(index, shard, file)
  {
  }

  /** Of the other files, those the index names for the shard are fetched, or all
      SafeTensors files when it names none. */
  lemma WeightsAreSelectedIff(index: Index, shard: Shard, siblings: seq<Option<string>>, file: string)
    requires !IsMetadata(file)
    ensures file in SelectFiles(WeightFiles(index, shard), siblings)
       <==> && Some(file) in siblings
            && if exists f :: Named(index, shard, f) then Named(index, shard, file)
               else EndsWith(ToAsciiLowercase(file), ".safetensors")
  {
    var files := WeightFiles(index, shard);
    SelectFilesIs(files, siblings, file);
    WeightFilesAreNamed(index, shard, file);
    if files != {} {
      var f :| f in files;
      WeightFilesAreNamed(index, shard, f);
    } else if f :| Named(index, shard, f) {
      WeightFilesAreNamed(index, shard, f);
    }
  }

  // ── Splitting a range ─────────────────────────────────────────────────────

  lemma SplitNeeds(a: nat, b: nat, c: nat, first: bool, last: bool, name: string)
    requires a <= b <= c
    ensures Needs(Shard(a, c, first, last), name)
       <==> Needs(Shard(a, b, first, false), name) || Needs(Shard(b, c, false, last), name)
  {
  }

  /** Splitting a shard in two, with the first flag on the left and the last flag
      on the right, neither loses nor adds a file. */
  lemma SplitNeededFiles(weights: WeightMap, a: nat, b: nat, c: nat, first: bool, last: bool)
    requires a <= b <= c
    ensures NeededFiles(weights, Shard(a, c, first, last))
         == NeededFiles(weights, Shard(a, b, first, false)) + NeededFiles(weights, Shard(b, c, false, last))
  {
    forall t
      ensures Needs(Shard(a, c, first, last), t)
         <==> Needs(Shard(a, b, first, false), t) || Needs(Shard(b, c, false, last), t)
    {
      SplitNeeds(a, b, c, first, last, t);
    }
  }

  ghost predicate EachCached(index: Index, present: set<string>, hasShards: bool, bounds: seq<nat>, last: bool) {
    forall i: nat :: i + 1 < |bounds| ==>
      BlocksAreCached(index, present, hasShards, Shard(bounds[i], bounds[i + 1], i == 0, last && i + 2 == |bounds|))
  }

  lemma {:induction false} CachedWholeIffParts(
    weights: WeightMap, present: set<string>, hasShards: bool, bounds: seq<nat>, last: bool)
    requires |bounds| >= 2 && forall i, j :: 0 <= i <= j < |bounds| ==> bounds[i] <= bounds[j]
    ensures BlocksAreCached(Indexed(weights), present, hasShards, Shard(bounds[0], bounds[|bounds| - 1], true, last))
       <==> EachCached(Indexed(weights), present, hasShards, bounds, last)
    decreases |bounds|
  {
    var index := Indexed(weights);
    var m := |bounds| - 1;
    if m > 1 {
      var init := bounds[..m];
      CachedWholeIffParts(weights, present, hasShards, init, false);
      SplitNeededFiles(weights, bounds[0], bounds[m - 1], bounds[m], true, last);
      var end := Shard(bounds[m - 1], bounds[m], false, last);
      if EachCached(index, present, hasShards, bounds, last) {
        forall i: nat | i + 1 < |init|
          ensures BlocksAreCached(index, present, hasShards, Shard(init[i], init[i + 1], i == 0, false))
        {
          assert Shard(init[i], init[i + 1], i == 0, false)
              == Shard(bounds[i], bounds[i + 1], i == 0, last && i + 2 == |bounds|);
        }
        assert (m - 1) + 1 < |bounds|;
        assert BlocksAreCached(index, present, hasShards, end);
      }
      if EachCached(index, present, hasShards, init, false) && BlocksAreCached(index, present, hasShards, end) {
        forall i: nat | i + 1 < |bounds|
          ensures BlocksAreCached(index, present, hasShards,
                                  Shard(bounds[i], bounds[i + 1], i == 0, last && i + 2 == |bounds|))
        {
          if i + 1 < |init| {
            assert BlocksAreCached(index, present, hasShards,
                                   Shard(init[i], init[i + 1], i == 0, false && i + 2 == |init|));
          }
        }
      }
    } else {
      assert 0 + 1 < |bounds|;
    }
  }

  /** A full model is cached exactly when every shard of a chain that tiles it is. */
  lemma ModelCachedIffShardsCached(
    weights: WeightMap, present: set<string>, hasShards: bool, bounds: seq<nat>, total: nat)
    requires Tiles(bounds, total)
    ensures BlocksAreCached(Indexed(weights), present, hasShards, Shard(0, total, true, true))
       <==> forall i: nat :: i + 1 < |bounds| ==>
              BlocksAreCached(Indexed(weights), present, hasShards, ShardAt(bounds, i))
  {
    CachedWholeIffParts(weights, present, hasShards, bounds, true);
    forall i: nat | i + 1 < |bounds|
      ensures ShardAt(bounds, i) == Shard(bounds[i], bounds[i + 1], i == 0, true && i + 2 == |bounds|)
    {
    }
  }
}
