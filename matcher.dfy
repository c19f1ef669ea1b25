/** `matchSkills`: which skills of each cluster a posting's text mentions. */
module Matcher {
  import opened Text
  import opened Stats
  import opened Taxonomy

  /** A recorded skill and the phrase that first produced it. */
  datatype Match = Match(id: string, matchedTerm: string)

  /** `results[clusterId]`: the cluster's label, the number of skills found and the skills themselves. */
  datatype ClusterMatch = ClusterMatch(clusterId: string, clusterLabel: string, matchCount: nat, matched: seq<Match>)

  /** `matched.map(m => m.id)`. */
  function Ids(ms: seq<Match>): seq<string>
  {
    seq(|ms|, i requires 0 <= i < |ms| => ms[i].id)
  }

  /** `lowerText.includes(keyword.term.toLowerCase())`. */
  predicate Hits(lowerText: string, k: Keyword)
  {
    Contains(lowerText, Lower(k.term))
  }

  /**
   * The entries the rule loop has pushed after visiting `kws`: a rule that hits
   * is recorded unless its skill id already was.
   */
  function Scan(lowerText: string, kws: seq<Keyword>): seq<Match>
    decreases |kws|
  {
    if |kws| == 0 then []
    else
      var prev := Scan(lowerText, kws[..|kws| - 1]);
      var k := kws[|kws| - 1];
      if Hits(lowerText, k) && k.id !in Ids(prev) then prev + [Match(k.id, k.term)] else prev
  }

  /** Rule `j` hits and no earlier rule for the same skill id does. */
  predicate FirstHit(lowerText: string, kws: seq<Keyword>, j: nat)
    requires j < |kws|
  {
    Hits(lowerText, kws[j]) && forall i :: 0 <= i < j && kws[i].id == kws[j].id ==> !Hits(lowerText, kws[i])
  }

  /** Reference definition: the rules that are first hits for their skill id, in declaration order. */
  function FirstHits(lowerText: string, kws: seq<Keyword>): seq<Match>
    decreases |kws|
  {
    if |kws| == 0 then []
    else
      FirstHits(lowerText, kws[..|kws| - 1])
        + if FirstHit(lowerText, kws, |kws| - 1) then [Match(kws[|kws| - 1].id, kws[|kws| - 1].term)] else []
  }

  /** The entry for cluster `c`, given the lowered text. */
  function ClusterResult(lowerText: string, c: Cluster): ClusterMatch
  {
    var matched := Scan(lowerText, c.keywords);
    ClusterMatch(c.id, c.displayLabel, |matched|, matched)
  }

  /** The value `matchSkills(text, taxonomy)` returns, one entry per cluster in taxonomy order. */
  function Skills(text: string, tax: seq<Cluster>): seq<ClusterMatch>
  {
    seq(|tax|, c requires 0 <= c < |tax| => ClusterResult(Lower(text), tax[c]))
  }

  /** The inner loop of `matchSkills`: scan one cluster's rules in order, keeping the set of skill ids recorded so far. */
  method ScanRules(lowerText: string, keywords: seq<Keyword>) returns (matchedIds: set<string>, matchedTerms: seq<Match>)
    ensures matchedTerms == Scan(lowerText, keywords)
    ensures forall x :: x in matchedIds <==> x in Ids(matchedTerms)
    ensures |matchedIds| == |matchedTerms|
  {
    matchedIds := {};
    matchedTerms := [];
    for k := 0 to |keywords|
      invariant matchedTerms == Scan(lowerText, keywords[..k])
      invariant forall x :: x in matchedIds <==> x in Ids(matchedTerms)
      invariant |matchedIds| == |matchedTerms|
    {
      var keyword := keywords[k];
      assert keywords[..k + 1][..k] == keywords[..k];
      if Contains(lowerText, Lower(keyword.term)) {
        if keyword.id !in matchedIds {
          matchedIds := matchedIds + {keyword.id};
          assert Ids(matchedTerms + [Match(keyword.id, keyword.term)]) == Ids(matchedTerms) + [keyword.id];
          matchedTerms := matchedTerms + [Match(keyword.id, keyword.term)];
        }
      }
    }
    assert keywords[..|keywords|] == keywords;
  }

  /**
   * `matchSkills`: lowers the text once, then scans each cluster's rules in order;
   * `match_count` is the size of the cluster's set of recorded skill ids.
   */
  method MatchSkills(text: string, taxonomy: seq<Cluster>) returns (results: seq<ClusterMatch>)
    ensures |results| == |taxonomy|
    ensures forall c :: 0 <= c < |taxonomy| ==> results[c] == ClusterResult(Lower(text), taxonomy[c])
  {
    var lowerText := Lower(text);
    results := [];
    for c := 0 to |taxonomy|
      invariant |results| == c
      invariant forall d :: 0 <= d < c ==> results[d] == ClusterResult(lowerText, taxonomy[d])
    {
      var cluster := taxonomy[c];
      var matchedIds, matchedTerms := ScanRules(lowerText, cluster.keywords);
      results := results + [ClusterMatch(cluster.id, cluster.displayLabel, |matchedIds|, matchedTerms)];
    }
  }

  /** Some rule for skill `id` hits. */
  predicate SomeRuleHits(lowerText: string, kws: seq<Keyword>, id: string)
  {
    exists j :: 0 <= j < |kws| && kws[j].id == id && Hits(lowerText, kws[j])
  }

  /** Some rule for `id` hits exactly when one does before the last rule or the last rule is for `id` and hits. */
  lemma SomeRuleHitsSnoc(lowerText: string, kws: seq<Keyword>, id: string)
    requires |kws| > 0
    ensures SomeRuleHits(lowerText, kws, id) <==>
      SomeRuleHits(lowerText, kws[..|kws| - 1], id) || (kws[|kws| - 1].id == id && Hits(lowerText, kws[|kws| - 1]))
  {
    var pre := kws[..|kws| - 1];
    if SomeRuleHits(lowerText, kws, id) {
      var j :| 0 <= j < |kws| && kws[j].id == id && Hits(lowerText, kws[j]);
      if j < |pre| { assert pre[j] == kws[j]; }
    }
    if SomeRuleHits(lowerText, pre, id) {
      var j :| 0 <= j < |pre| && pre[j].id == id && Hits(lowerText, pre[j]);
      assert kws[j] == pre[j];
    }
  }

  /** A skill id is recorded exactly when some rule for it hits. */
  lemma {:induction false} ScanIds(lowerText: string, kws: seq<Keyword>)
    ensures forall id :: id in Ids(Scan(lowerText, kws)) <==> SomeRuleHits(lowerText, kws, id)
    decreases |kws|
  {
    if |kws| > 0 {
      var pre, k := kws[..|kws| - 1], kws[|kws| - 1];
      var prev := Scan(lowerText, pre);
      ScanIds(lowerText, pre);
      assert Ids(prev + [Match(k.id, k.term)]) == Ids(prev) + [k.id];
      forall id ensures id in Ids(Scan(lowerText, kws)) <==> SomeRuleHits(lowerText, kws, id) {
        SomeRuleHitsSnoc(lowerText, kws, id);
      }
    }
  }

  /** No skill id is recorded twice. */
  lemma {:induction false} ScanNoDuplicates(lowerText: string, kws: seq<Keyword>)
    ensures NoDup(Ids(Scan(lowerText, kws)))
    decreases |kws|
  {
    if |kws| > 0 {
      var pre, k := kws[..|kws| - 1], kws[|kws| - 1];
      var prev := Scan(lowerText, pre);
      ScanNoDuplicates(lowerText, pre);
      assert Ids(prev + [Match(k.id, k.term)]) == Ids(prev) + [k.id];
    }
  }

  /** The recorded entries are exactly the first hits, in rule order, each with the phrase of that first rule. */
  lemma {:induction false} ScanIsFirstHits(lowerText: string, kws: seq<Keyword>)
    ensures Scan(lowerText, kws) == FirstHits(lowerText, kws)
    decreases |kws|
  {
    if |kws| > 0 {
      var pre, k := kws[..|kws| - 1], kws[|kws| - 1];
      ScanIsFirstHits(lowerText, pre);
      ScanIds(lowerText, pre);
      if Hits(lowerText, k) && k.id in Ids(Scan(lowerText, pre)) {
        assert SomeRuleHits(lowerText, pre, k.id);
        var j :| 0 <= j < |pre| && pre[j].id == k.id && Hits(lowerText, pre[j]);
        assert kws[j] == pre[j];
      }
    }
  }

  /** `match_count` is the length of `matched` and the number of distinct skill ids that some rule hits. */
  lemma MatchCountIsDistinctHits(lowerText: string, c: Cluster)
    ensures ClusterResult(lowerText, c).matchCount == |ClusterResult(lowerText, c).matched|
    ensures ClusterResult(lowerText, c).matchCount ==
      |set j | 0 <= j < |c.keywords| && Hits(lowerText, c.keywords[j]) :: c.keywords[j].id|
  {
    var ids := Ids(Scan(lowerText, c.keywords));
    ScanIds(lowerText, c.keywords);
    ScanNoDuplicates(lowerText, c.keywords);
    NoDupCardinality(ids);
    assert (set x | x in ids) == set j | 0 <= j < |c.keywords| && Hits(lowerText, c.keywords[j]) :: c.keywords[j].id;
  }

  /** Matching is case-insensitive: lowering the text first changes no cluster's entry. */
  lemma MatchCaseInsensitive(text: string, tax: seq<Cluster>)
    ensures Skills(Lower(text), tax) == Skills(text, tax)
  {
    LowerIdempotent(text);
  }
}
