/**
 * The idempotent analysis engine (app/services/analysis_service.py): a deterministic
 * derivation from an image id to a result, behind the record store used as a cache.
 */
module AnalysisService {
  import opened Wrappers
  import opened Errors
  import opened Schemas
  import opened FileStorage

  /** The skin-type labels, in the order the generator chooses from. */
  const SkinTypes: seq<string> := ["Oily", "Dry", "Combination", "Normal"]

  /** The issue labels, in the order the generator samples from. */
  const Issues: seq<string> := ["Hyperpigmentation", "Acne", "Wrinkles", "Redness", "Dark Spots"]

  const TwoTo32: nat := 0x1_0000_0000

  /** No label occurs twice. */
  predicate Distinct(s: seq<string>) {
    forall i, j :: 0 <= i < j < |s| ==> s[i] != s[j]
  }

  /**
   * The 32-bit seed of the derivation. It stands for the 128-bit digest of the id reduced
   * modulo 2^32: any fixed function of the id reduced modulo 2^32 serves the model.
   */
  function Seed(imageId: string): (seed: nat)
    ensures seed < TwoTo32
  {
    if imageId == [] then 0
    else (Seed(imageId[..|imageId| - 1]) * 131 + imageId[|imageId| - 1] as int) % TwoTo32
  }

  /** The state of the seeded pseudo-random generator. */
  datatype Rng = Rng(state: nat)

  /** One draw below `n`, and the generator after it (a linear congruential step). */
  function RandBelow(g: Rng, n: nat): (r: (nat, Rng))
    requires n > 0
    ensures r.0 < n && r.1.state < TwoTo32
  {
    var next := (1103515245 * g.state + 12345) % TwoTo32;
    (next % n, Rng(next))
  }

  /**
   * Removing the drawn entry the way the sampler does (the last entry takes its place and
   * the pool shrinks by one) keeps every other entry and drops the drawn one.
   */
  lemma RemoveBySwap(pool: seq<string>, j: nat)
    requires j < |pool|
    ensures |pool[j := pool[|pool| - 1]][..|pool| - 1]| == |pool| - 1
    ensures forall x :: x in pool[j := pool[|pool| - 1]][..|pool| - 1] ==> x in pool
    ensures Distinct(pool) ==> Distinct(pool[j := pool[|pool| - 1]][..|pool| - 1])
    ensures Distinct(pool) ==> pool[j] !in pool[j := pool[|pool| - 1]][..|pool| - 1]
  {
  }

  /**
   * Sampling `k` labels without replacement: draw an index into the pool, take that entry,
   * move the last entry into its place, and sample the rest from the shrunken pool.
   */
  function Sample(g: Rng, pool: seq<string>, k: nat): (r: (seq<string>, Rng))
    requires k <= |pool|
    ensures |r.0| == k
    ensures forall x :: x in r.0 ==> x in pool
    ensures Distinct(pool) ==> Distinct(r.0)
    decreases k
  {
    if k == 0 then ([], g)
    else
      var (j, g1) := RandBelow(g, |pool|);
      var rest := pool[j := pool[|pool| - 1]][..|pool| - 1];
      RemoveBySwap(pool, j);
      var (tail, g2) := Sample(g1, rest, k - 1);
      ([pool[j]] + tail, g2)
  }

  /**
   * `_generate_deterministic_analysis`: a pure function of the id. The draws come in this
   * order: skin type, issue count in 1..3, the issue sample, the confidence draw. The
   * result carries the id, one of the four skin types, one to three distinct
   * issues, and a confidence between 0.70 and 0.95.
   */
  function Derive(imageId: string): (r: AnalysisResult)
    ensures r.imageId == imageId
    ensures r.skinType in SkinTypes
    ensures 1 <= |r.issues| <= 3
    ensures forall issue :: issue in r.issues ==> issue in Issues
    ensures Distinct(r.issues)
    ensures 70 <= r.confidenceHundredths <= 95
  {
    var g0 := Rng(Seed(imageId));
    var (skin, g1) := RandBelow(g0, |SkinTypes|);
    var (extra, g2) := RandBelow(g1, 3);
    assert Distinct(Issues);
    var (issues, g3) := Sample(g2, Issues, extra + 1);
    var (draw, _) := RandBelow(g3, 26);
    AnalysisResult(imageId, SkinTypes[skin], issues, 70 + draw)
  }

  /** Every readable record in the store is the derivation of its own id. */
  ghost predicate ResultsDerived(store: Storage)
    reads store
  {
    forall id :: id in store.records && store.records[id].Readable? ==> store.records[id].result == Derive(id)
  }

  /**
   * `analyze_image`: return the cached record when one can be read (without looking at the
   * image store); otherwise fail when no image exists; otherwise derive, save once and return.
   */
  method AnalyzeImage(store: Storage, imageId: string) returns (res: Result<AnalysisResult, Error>)
    modifies store
    ensures store.images == old(store.images)
    ensures old(store.HasRecord(imageId)) ==>
      res == Success(old(store.records)[imageId].result) && store.records == old(store.records)
    ensures !old(store.HasRecord(imageId)) && !old(store.HasImage(imageId)) ==>
      res == Failure(ImageNotFound(imageId)) && store.records == old(store.records)
    ensures !old(store.HasRecord(imageId)) && old(store.HasImage(imageId)) ==>
      res == Success(Derive(imageId)) &&
      store.records == old(store.records)[imageId := Readable(Derive(imageId))]
    ensures res.Failure? <==> !old(store.HasRecord(imageId)) && !old(store.HasImage(imageId))
    ensures res.Failure? ==> res.error == ImageNotFound(imageId)
    ensures res.Success? ==> store.HasRecord(imageId) && store.records[imageId].result == res.value
    ensures old(ResultsDerived(store)) ==> ResultsDerived(store)
    ensures old(ResultsDerived(store)) && res.Success? ==> res.value == Derive(imageId)
  {
    var cached := store.LoadAnalysisResult(imageId);
    if cached.Some? {
      return Success(cached.value);
    }
    var found := store.ImageExists(imageId);
    if !found {
      return Failure(ImageNotFound(imageId));
    }
    var result := Derive(imageId);
    var _ := store.SaveAnalysisResult(imageId, result);
    return Success(result);
  }

  /**
   * Idempotence: a second call for the same id returns what the first returned, and the
   * stores end as they were after the first call alone.
   */
  method AnalyzeTwice(store: Storage, imageId: string)
    returns (first: Result<AnalysisResult, Error>, second: Result<AnalysisResult, Error>)
    modifies store
    ensures second == first
    ensures store.images == old(store.images)
    ensures store.records ==
      if !old(store.HasRecord(imageId)) && old(store.HasImage(imageId))
      then old(store.records)[imageId := Readable(Derive(imageId))]
      else old(store.records)
  {
    first := AnalyzeImage(store, imageId);
    second := AnalyzeImage(store, imageId);
  }
}
