/** Quorum arithmetic and majority selection (utils/consensus.go). */
module Quorum {
  import opened Words

  function ExpectedPlayers(num: nat): nat {
    if num == 0 then 1
    else if num == 1 then 1
    else if num == 2 then 2
    else if num == 3 then 2
    else if num < 5 then 3
    else num / 2 + 1
  }

  /** The six branches are one formula: more than half. */
  lemma ExpectedPlayersIsMajority(num: nat)
    ensures ExpectedPlayers(num) == num / 2 + 1
  {
  }

  /** Two quorums drawn from one membership share a member. */
  lemma QuorumsIntersect(members: set<u64>, a: set<u64>, b: set<u64>) returns (shared: u64)
    requires a <= members && b <= members
    requires |a| >= ExpectedPlayers(|members|) && |b| >= ExpectedPlayers(|members|)
    ensures shared in a && shared in b
  {
    if a * b == {} {
      assert |a + b| == |a| + |b|;
      SubsetSize(a + b, members);
      assert false;
    }
    shared :| shared in a * b;
  }

  // ---------- majority selection ----------

  predicate IsMajority(votes: multiset<u64>, v: u64) {
    votes[v] >= ExpectedPlayers(|votes|)
  }

  lemma CountsShareTheTotal(votes: multiset<u64>, v: u64, w: u64)
    requires v != w
    ensures votes[v] + votes[w] <= |votes|
  {
    var others := votes[v := 0];
    assert |others| == |votes| - votes[v];
    assert |others[w := 0]| == |others| - others[w];
  }

  lemma MajorityIsUnique(votes: multiset<u64>, v: u64, w: u64)
    requires IsMajority(votes, v) && IsMajority(votes, w)
    ensures v == w
  {
    if v != w {
      CountsShareTheTotal(votes, v, w);
    }
  }

  /** The value more than half of the votes agree on, and 0 when there is none. */
  ghost function Majority(votes: multiset<u64>): u64 {
    if exists v: u64 :: IsMajority(votes, v) then var v: u64 :| IsMajority(votes, v); v else 0
  }

  /** More than half means more than half: the threshold of PickMajority is the strict majority. */
  lemma MajorityMeaning(votes: multiset<u64>, v: u64)
    ensures 2 * votes[v] > |votes| ==> Majority(votes) == v
    ensures Majority(votes) == v ==> 2 * votes[v] > |votes| || (v == 0 && forall w: u64 :: 2 * votes[w] <= |votes|)
  {
    if 2 * votes[v] > |votes| {
      assert IsMajority(votes, v);
      MajorityIsUnique(votes, v, Majority(votes));
    }
    if w: u64 :| 2 * votes[w] > |votes| {
      assert IsMajority(votes, w);
      MajorityIsUnique(votes, w, Majority(votes));
    }
  }

  /**
   Counting in a map and then scanning the map in whatever order it iterates.
   The result is a function of the multiset of hashes: neither order matters.
   */
  method PickMajority(hashes: seq<u64>) returns (winner: u64)
    ensures winner == Majority(multiset(hashes))
  {
    var countMap: map<u64, nat> := map[];
    for i := 0 to |hashes|
      invariant forall v :: v in countMap <==> v in multiset(hashes[..i])
      invariant forall v :: v in countMap ==> countMap[v] == multiset(hashes[..i])[v]
    {
      assert hashes[..i + 1] == hashes[..i] + [hashes[i]];
      var hash := hashes[i];
      if hash in countMap {
        countMap := countMap[hash := countMap[hash] + 1];
      } else {
        countMap := countMap[hash := 1];
      }
    }
    assert hashes[..|hashes|] == hashes;
    ghost var votes := multiset(hashes);
    var expectedConsensus := ExpectedPlayers(|hashes|);
    var unseen := countMap.Keys;
    while unseen != {}
      invariant unseen <= countMap.Keys
      invariant forall v :: v in countMap && v !in unseen ==> !IsMajority(votes, v)
      decreases |unseen|
    {
      var hash :| hash in unseen;
      if countMap[hash] >= expectedConsensus {
        assert IsMajority(votes, hash);
        MajorityIsUnique(votes, hash, Majority(votes));
        return hash;
      }
      unseen := unseen - {hash};
    }
    forall v: u64 ensures !IsMajority(votes, v) {
      if v !in votes {
        assert votes[v] == 0;
      }
    }
    return 0;
  }

  // ---------- majority of rich responses ----------

  datatype FuncResult<T> = FuncResult(result: Option<T>, feature: Bytes)

  /** The features of the responses that carry a result, in order of arrival. */
  function Features<T>(arrivals: seq<FuncResult<T>>): seq<Bytes> {
    if arrivals == [] then []
    else
      var init, last := arrivals[..|arrivals| - 1], arrivals[|arrivals| - 1];
      if last.result.None? then Features(init) else Features(init) + [last.feature]
  }

  function HashAll(hashData: Bytes -> u64, features: seq<Bytes>): (hashes: seq<u64>)
    ensures |hashes| == |features|
  {
    seq(|features|, i requires 0 <= i < |features| => hashData(features[i]))
  }

  ghost predicate NoHashCollision(hashData: Bytes -> u64, texts: set<Bytes>) {
    forall x, y :: x in texts && y in texts && hashData(x) == hashData(y) ==> x == y
  }

  /** Without collisions a hash is counted as often as its text. */
  lemma {:induction false} HashingKeepsCounts(hashData: Bytes -> u64, texts: seq<Bytes>, t: Bytes)
    requires NoHashCollision(hashData, (set x | x in texts) + {t})
    ensures multiset(HashAll(hashData, texts))[hashData(t)] == multiset(texts)[t]
  {
    if texts != [] {
      var n := |texts| - 1;
      HashingKeepsCounts(hashData, texts[..n], t);
      assert texts == texts[..n] + [texts[n]];
      assert HashAll(hashData, texts) == HashAll(hashData, texts[..n]) + [hashData(texts[n])];
    }
  }

  ghost predicate NoFeatureCollision<T>(hashData: Bytes -> u64, arrivals: seq<FuncResult<T>>) {
    NoHashCollision(hashData, set i | 0 <= i < |arrivals| :: arrivals[i].feature)
  }

  /** The responses that carry a result, and those of them that carry this feature. */
  ghost function Carrying<T>(arrivals: seq<FuncResult<T>>): set<int> {
    set i | 0 <= i < |arrivals| && arrivals[i].result.Some?
  }

  ghost function CarryingFeature<T>(arrivals: seq<FuncResult<T>>, f: Bytes): set<int> {
    set i | 0 <= i < |arrivals| && arrivals[i].result.Some? && arrivals[i].feature == f
  }

  /** More than half of the responses that carry a result carry this feature. */
  ghost predicate IsMajorityFeature<T>(arrivals: seq<FuncResult<T>>, f: Bytes) {
    2 * |CarryingFeature(arrivals, f)| > |Carrying(arrivals)|
  }

  lemma CarryingStep<T>(arrivals: seq<FuncResult<T>>, f: Bytes)
    requires arrivals != []
    ensures var (init, n, last) := (arrivals[..|arrivals| - 1], |arrivals| - 1, arrivals[|arrivals| - 1]);
            && Carrying(arrivals) == Carrying(init) + (if last.result.Some? then {n} else {})
            && CarryingFeature(arrivals, f) ==
               CarryingFeature(init, f) + (if last.result.Some? && last.feature == f then {n} else {})
            && n !in Carrying(init) && n !in CarryingFeature(init, f)
  {
    forall i | 0 <= i < |arrivals| - 1 ensures arrivals[..|arrivals| - 1][i] == arrivals[i] {}
  }

  /** How often a feature is counted, and how many are: responses without a result are left out. */
  lemma {:induction false} FeatureCounts<T>(arrivals: seq<FuncResult<T>>, f: Bytes)
    ensures multiset(Features(arrivals))[f] == |CarryingFeature(arrivals, f)|
    ensures |Features(arrivals)| == |Carrying(arrivals)|
    decreases |arrivals|
  {
    if arrivals != [] {
      FeatureCounts(arrivals[..|arrivals| - 1], f);
      CarryingStep(arrivals, f);
    }
  }

  /** Among the first `n` responses the last that carries a result and hashes to `hash` carries `r`. */
  ghost predicate LastAnswer<T>(hashData: Bytes -> u64, arrivals: seq<FuncResult<T>>, n: nat, hash: u64, r: T)
    requires n <= |arrivals|
  {
    exists i :: 0 <= i < n && arrivals[i].result == Some(r) && hashData(arrivals[i].feature) == hash &&
                forall j :: i < j < n && arrivals[j].result.Some? ==> hashData(arrivals[j].feature) != hash
  }

  lemma {:induction false} FeaturesArrived<T>(arrivals: seq<FuncResult<T>>)
    ensures forall f :: f in Features(arrivals) ==> exists i :: 0 <= i < |arrivals| && arrivals[i].feature == f
  {
    if arrivals != [] {
      var init := arrivals[..|arrivals| - 1];
      FeaturesArrived(init);
      forall f | f in Features(arrivals) ensures exists i :: 0 <= i < |arrivals| && arrivals[i].feature == f {
        if f in Features(init) {
          var i :| 0 <= i < |init| && init[i].feature == f;
          assert arrivals[i].feature == f;
        } else {
          assert arrivals[|arrivals| - 1].feature == f;
        }
      }
    }
  }

  /** The hash of a majority feature is the majority hash. */
  lemma MajorityFeatureHash<T>(hashData: Bytes -> u64, arrivals: seq<FuncResult<T>>, f: Bytes)
    requires NoFeatureCollision(hashData, arrivals) && IsMajorityFeature(arrivals, f)
    ensures f in Features(arrivals)
    ensures Majority(multiset(HashAll(hashData, Features(arrivals)))) == hashData(f)
  {
    var fs := Features(arrivals);
    FeatureCounts(arrivals, f);
    assert f in multiset(fs);
    FeaturesArrived(arrivals);
    HashingKeepsCounts(hashData, fs, f);
    MajorityMeaning(multiset(HashAll(hashData, fs)), hashData(f));
  }

  lemma LastStays<T>(hashData: Bytes -> u64, arrivals: seq<FuncResult<T>>, n: nat, hash: u64, r: T)
    requires n < |arrivals| && LastAnswer(hashData, arrivals, n, hash, r)
    requires arrivals[n].result.None? || hashData(arrivals[n].feature) != hash
    ensures LastAnswer(hashData, arrivals, n + 1, hash, r)
  {
    var i :| 0 <= i < n && arrivals[i].result == Some(r) && hashData(arrivals[i].feature) == hash &&
             forall j :: i < j < n && arrivals[j].result.Some? ==> hashData(arrivals[j].feature) != hash;
  }

  /** The answer is that of the last response that carries a result and this feature. */
  ghost predicate AnswersFor<T>(arrivals: seq<FuncResult<T>>, f: Bytes, answer: Option<T>) {
    exists k :: 0 <= k < |arrivals| && arrivals[k].result.Some? && arrivals[k].result == answer &&
                arrivals[k].feature == f &&
                forall j :: k < j < |arrivals| && arrivals[j].result.Some? ==> arrivals[j].feature != f
  }

  /** Every value is the last answer to its hash. */
  ghost predicate AllLast<T>(hashData: Bytes -> u64, arrivals: seq<FuncResult<T>>, n: nat, vals: map<u64, T>)
    requires n <= |arrivals|
  {
    forall v :: v in vals ==> LastAnswer(hashData, arrivals, n, v, vals[v])
  }

  lemma AllLastStep<T>(hashData: Bytes -> u64, arrivals: seq<FuncResult<T>>, n: nat, vals: map<u64, T>)
    requires n < |arrivals| && AllLast(hashData, arrivals, n, vals)
    ensures arrivals[n].result.None? ==> AllLast(hashData, arrivals, n + 1, vals)
    ensures arrivals[n].result.Some? ==>
              AllLast(hashData, arrivals, n + 1, vals[hashData(arrivals[n].feature) := arrivals[n].result.value])
  {
    forall v | v in vals && (arrivals[n].result.None? || hashData(arrivals[n].feature) != v)
      ensures LastAnswer(hashData, arrivals, n + 1, v, vals[v])
    {
      LastStays(hashData, arrivals, n, v, vals[v]);
    }
    if arrivals[n].result.Some? {
      assert LastAnswer(hashData, arrivals, n + 1, hashData(arrivals[n].feature), arrivals[n].result.value);
    }
  }

  lemma FeatureArrived<T>(arrivals: seq<FuncResult<T>>, f: Bytes) returns (i: nat)
    requires f in Features(arrivals)
    ensures i < |arrivals| && arrivals[i].feature == f
  {
    FeaturesArrived(arrivals);
    var k :| 0 <= k < |arrivals| && arrivals[k].feature == f;
    i := k;
  }

  lemma SameFeature<T>(hashData: Bytes -> u64, arrivals: seq<FuncResult<T>>, i: nat, j: nat)
    requires NoFeatureCollision(hashData, arrivals) && i < |arrivals| && j < |arrivals|
    requires hashData(arrivals[i].feature) == hashData(arrivals[j].feature)
    ensures arrivals[i].feature == arrivals[j].feature
  {
  }

  /** The last answer to a hash is the last answer to a feature of that hash, where features do not collide. */
  lemma LastAnswersFor<T>(hashData: Bytes -> u64, arrivals: seq<FuncResult<T>>, r: T, f: Bytes, some: nat)
    requires NoFeatureCollision(hashData, arrivals) && some < |arrivals| && arrivals[some].feature == f
    requires LastAnswer(hashData, arrivals, |arrivals|, hashData(f), r)
    ensures AnswersFor(arrivals, f, Some(r))
  {
    var last :| 0 <= last < |arrivals| && arrivals[last].result == Some(r) &&
                hashData(arrivals[last].feature) == hashData(f) &&
                forall j :: last < j < |arrivals| && arrivals[j].result.Some? ==>
                              hashData(arrivals[j].feature) != hashData(f);
    SameFeature(hashData, arrivals, last, some);
    forall j | last < j < |arrivals| && arrivals[j].result.Some? ensures arrivals[j].feature != f {
      assert hashData(arrivals[j].feature) != hashData(f);
    }
  }

  lemma MajorityIsAnswered<T>(hashData: Bytes -> u64, arrivals: seq<FuncResult<T>>, hash: u64, r: T, f: Bytes)
    requires NoFeatureCollision(hashData, arrivals) && f in Features(arrivals) && hash == hashData(f)
    requires LastAnswer(hashData, arrivals, |arrivals|, hash, r)
    ensures AnswersFor(arrivals, f, Some(r))
  {
    var some := FeatureArrived(arrivals, f);
    LastAnswersFor(hashData, arrivals, r, f, some);
  }

  /**
   The collecting half of MajorityResponse: one arrival for each client, in any order, a failed or timed-out call
   arriving as None. The value of the majority hash is preferred; otherwise any received value is returned.
   */
  method MajorityResponse<T>(hashData: Bytes -> u64, arrivals: seq<FuncResult<T>>) returns (answer: Option<T>)
    ensures answer.None? <==> forall i :: 0 <= i < |arrivals| ==> arrivals[i].result.None?
    ensures answer.Some? ==> exists i :: 0 <= i < |arrivals| && arrivals[i].result == answer
    ensures forall f :: NoFeatureCollision(hashData, arrivals) && IsMajorityFeature(arrivals, f) ==>
                        AnswersFor(arrivals, f, answer)
  {
    var hashes: seq<u64> := [];
    var vals: map<u64, T> := map[];
    for i := 0 to |arrivals|
      invariant hashes == HashAll(hashData, Features(arrivals[..i]))
      invariant AllLast(hashData, arrivals, i, vals)
      invariant forall f :: f in Features(arrivals[..i]) ==> hashData(f) in vals
      invariant vals == map[] ==> forall j :: 0 <= j < i ==> arrivals[j].result.None?
    {
      var fr := arrivals[i];
      assert arrivals[..i + 1][..i] == arrivals[..i];
      AllLastStep(hashData, arrivals, i, vals);
      if fr.result.Some? {
        var hash := hashData(fr.feature);
        hashes := hashes + [hash];
        vals := vals[hash := fr.result.value];
      }
    }
    assert arrivals[..|arrivals|] == arrivals;
    forall f | NoFeatureCollision(hashData, arrivals) && IsMajorityFeature(arrivals, f)
      ensures f in Features(arrivals) && Majority(multiset(hashes)) == hashData(f)
    {
      MajorityFeatureHash(hashData, arrivals, f);
    }
    var majorityHash := PickMajority(hashes);
    if majorityHash in vals {
      assert LastAnswer(hashData, arrivals, |arrivals|, majorityHash, vals[majorityHash]);
      forall f | NoFeatureCollision(hashData, arrivals) && IsMajorityFeature(arrivals, f)
        ensures AnswersFor(arrivals, f, Some(vals[majorityHash]))
      {
        MajorityIsAnswered(hashData, arrivals, majorityHash, vals[majorityHash], f);
      }
      return Some(vals[majorityHash]);
    }
    if vals != map[] {
      assert vals.Keys != {};
      var v :| v in vals.Keys;
      assert LastAnswer(hashData, arrivals, |arrivals|, v, vals[v]);
      return Some(vals[v]);
    }
    return None;
  }
}
