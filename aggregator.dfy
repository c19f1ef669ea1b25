/**
 * `analyzePostings`: per-posting matching, cluster frequencies with ranked skill
 * tallies, region and seniority slices, the AI deep dive and the metadata.
 */
module Aggregator {
  import opened Wrappers
  import opened Stats
  import opened Taxonomy
  import opened Normalizer
  import opened Matcher

  /** One entry of `per_posting`: the posting's identity fields and its `skills` by cluster. */
  datatype PostingResult = PostingResult(
    id: string,
    company: string,
    title: Option<string>,
    region: string,
    seniority: string,
    status: string,
    skills: seq<ClusterMatch>)

  /** The entry pushed for posting `p`. */
  function ResultOf(p: Posting, tax: seq<Cluster>): PostingResult
  {
    PostingResult(p.id, p.company, p.title, p.region, p.seniority, p.status, Skills(CombinedText(p), tax))
  }

  /** `postingResults`, one entry per posting in input order. */
  function Results(ps: seq<Posting>, tax: seq<Cluster>): (rs: seq<PostingResult>)
    ensures Aligned(ps, rs)
    ensures Consistent(rs, |tax|)
  {
    var rs := seq(|ps|, i requires 0 <= i < |ps| => ResultOf(ps[i], tax));
    assert Consistent(rs, |tax|) by {
      forall r, c | r in rs && 0 <= c < |tax|
        ensures |r.skills| == |tax|
        ensures r.skills[c].matchCount == |r.skills[c].matched| && NoDup(Ids(r.skills[c].matched))
      {
        var i :| 0 <= i < |ps| && rs[i] == r;
        ScanNoDuplicates(Text.Lower(CombinedText(ps[i])), tax[c].keywords);
      }
    }
    rs
  }

  /** Result `i` belongs to posting `i`. */
  predicate Aligned(ps: seq<Posting>, rs: seq<PostingResult>)
  {
    |rs| == |ps| && forall i :: 0 <= i < |ps| ==> rs[i].id == ps[i].id
  }

  /** Every result carries one entry per cluster of a taxonomy of `n` clusters. */
  predicate Covers(rs: seq<PostingResult>, n: nat)
  {
    forall r :: r in rs ==> |r.skills| == n
  }

  /** Every result carries an entry at cluster position `c`. */
  predicate HasCluster(rs: seq<PostingResult>, c: nat)
  {
    forall r :: r in rs ==> c < |r.skills|
  }

  /** Each cluster entry counts its own `matched` list, which holds no skill id twice. */
  predicate Consistent(rs: seq<PostingResult>, n: nat)
  {
    Covers(rs, n) &&
    forall r, c :: r in rs && 0 <= c < n ==>
      r.skills[c].matchCount == |r.skills[c].matched| && NoDup(Ids(r.skills[c].matched))
  }

  /** The per-posting loop: combine the text of each posting, match it, and push the result. */
  method AnalyzeEach(postings: seq<Posting>, taxonomy: seq<Cluster>) returns (results: seq<PostingResult>)
    ensures results == Results(postings, taxonomy)
  {
    results := [];
    for i := 0 to |postings|
      invariant |results| == i
      invariant forall j :: 0 <= j < i ==> results[j] == ResultOf(postings[j], taxonomy)
    {
      var posting := postings[i];
      var text := CombinedText(posting);
      var skills := MatchSkills(text, taxonomy);
      assert skills == Skills(text, taxonomy);
      results := results + [PostingResult(posting.id, posting.company, posting.title,
                                          posting.region, posting.seniority, posting.status, skills)];
    }
  }

  /** `rs.filter(p => p.skills[c].match_count > 0)`. */
  function WithMatches(rs: seq<PostingResult>, c: nat): (w: seq<PostingResult>)
    requires HasCluster(rs, c)
    ensures |w| <= |rs|
    ensures forall r :: r in w ==> r in rs && r.skills[c].matchCount > 0
    decreases |rs|
  {
    if |rs| == 0 then []
    else
      var pre, last := rs[..|rs| - 1], rs[|rs| - 1];
      assert rs == pre + [last];
      WithMatches(pre, c) + if last.skills[c].matchCount > 0 then [last] else []
  }

  /** Every input that mentions cluster `c` is kept by the filter. */
  lemma {:induction false} WithMatchesKeepsMentions(rs: seq<PostingResult>, c: nat)
    requires HasCluster(rs, c)
    ensures forall r :: r in rs && r.skills[c].matchCount > 0 ==> r in WithMatches(rs, c)
    decreases |rs|
  {
    if |rs| > 0 {
      var pre, last := rs[..|rs| - 1], rs[|rs| - 1];
      assert rs == pre + [last];
      WithMatchesKeepsMentions(pre, c);
    }
  }

  /** The positions of the results that mention cluster `c`, in increasing order. */
  function MentionIndices(rs: seq<PostingResult>, c: nat): seq<nat>
    requires HasCluster(rs, c)
    decreases |rs|
  {
    if |rs| == 0 then []
    else MentionIndices(rs[..|rs| - 1], c) + if rs[|rs| - 1].skills[c].matchCount > 0 then [|rs| - 1] else []
  }

  /** Each mention position lies within `rs` and mentions `c`. */
  lemma {:induction false} MentionIndicesBounded(rs: seq<PostingResult>, c: nat)
    requires HasCluster(rs, c)
    ensures forall k :: 0 <= k < |MentionIndices(rs, c)| ==>
      MentionIndices(rs, c)[k] < |rs| && rs[MentionIndices(rs, c)[k]].skills[c].matchCount > 0
    decreases |rs|
  {
    if |rs| > 0 {
      var pre := rs[..|rs| - 1];
      assert forall r :: r in pre ==> r in rs;
      MentionIndicesBounded(pre, c);
      var old_idx, idx := MentionIndices(pre, c), MentionIndices(rs, c);
      assert idx == old_idx + if rs[|rs| - 1].skills[c].matchCount > 0 then [|rs| - 1] else [];
      forall k | 0 <= k < |idx|
        ensures idx[k] < |rs| && rs[idx[k]].skills[c].matchCount > 0
      {
        if k < |old_idx| {
          assert idx[k] == old_idx[k] && pre[old_idx[k]] == rs[old_idx[k]];
        }
      }
    }
  }

  /** The mention positions are strictly increasing. */
  lemma {:induction false} MentionIndicesIncreasing(rs: seq<PostingResult>, c: nat)
    requires HasCluster(rs, c)
    ensures forall k, l :: 0 <= k < l < |MentionIndices(rs, c)| ==> MentionIndices(rs, c)[k] < MentionIndices(rs, c)[l]
    decreases |rs|
  {
    if |rs| > 0 {
      var pre, n := rs[..|rs| - 1], |rs| - 1;
      assert forall r :: r in pre ==> r in rs;
      MentionIndicesIncreasing(pre, c);
      MentionIndicesBounded(pre, c);
      var old_idx, idx := MentionIndices(pre, c), MentionIndices(rs, c);
      assert idx == old_idx + if rs[n].skills[c].matchCount > 0 then [n] else [];
      forall k, l | 0 <= k < l < |idx|
        ensures idx[k] < idx[l]
      {
        assert idx[k] == old_idx[k] < n;
        if l < |old_idx| {
          assert idx[l] == old_idx[l];
        }
      }
    }
  }

  /** Every position that mentions `c` is a mention position. */
  lemma {:induction false} MentionIndicesComplete(rs: seq<PostingResult>, c: nat)
    requires HasCluster(rs, c)
    ensures forall i :: 0 <= i < |rs| && rs[i].skills[c].matchCount > 0 ==> i in MentionIndices(rs, c)
    decreases |rs|
  {
    if |rs| > 0 {
      var pre, n := rs[..|rs| - 1], |rs| - 1;
      assert forall r :: r in pre ==> r in rs;
      MentionIndicesComplete(pre, c);
      var old_idx, idx := MentionIndices(pre, c), MentionIndices(rs, c);
      assert idx == old_idx + if rs[n].skills[c].matchCount > 0 then [n] else [];
      forall i | 0 <= i < |rs| && rs[i].skills[c].matchCount > 0
        ensures i in idx
      {
        if i < n {
          assert pre[i] == rs[i] && i in old_idx;
        } else {
          assert idx[|old_idx|] == i;
        }
      }
    }
  }

  /** The mention positions are increasing, each within `rs` and mentioning `c`, and every mentioning position is one. */
  lemma MentionIndicesSpec(rs: seq<PostingResult>, c: nat)
    requires HasCluster(rs, c)
    ensures var idx := MentionIndices(rs, c);
      && (forall k :: 0 <= k < |idx| ==> idx[k] < |rs| && rs[idx[k]].skills[c].matchCount > 0)
      && (forall k, l :: 0 <= k < l < |idx| ==> idx[k] < idx[l])
      && (forall i :: 0 <= i < |rs| && rs[i].skills[c].matchCount > 0 ==> i in idx)
  {
    MentionIndicesBounded(rs, c);
    MentionIndicesIncreasing(rs, c);
    MentionIndicesComplete(rs, c);
  }

  /** The filter keeps exactly the results at the mention positions, in input order. */
  lemma {:induction false} WithMatchesSubsequence(rs: seq<PostingResult>, c: nat)
    requires HasCluster(rs, c)
    ensures |WithMatches(rs, c)| == |MentionIndices(rs, c)|
    ensures forall k :: 0 <= k < |WithMatches(rs, c)| ==>
      MentionIndices(rs, c)[k] < |rs| && WithMatches(rs, c)[k] == rs[MentionIndices(rs, c)[k]]
    decreases |rs|
  {
    if |rs| > 0 {
      var pre, n := rs[..|rs| - 1], |rs| - 1;
      assert forall r :: r in pre ==> r in rs;
      WithMatchesSubsequence(pre, c);
      var w, idx := WithMatches(pre, c), MentionIndices(pre, c);
      var w', idx' := WithMatches(rs, c), MentionIndices(rs, c);
      if rs[n].skills[c].matchCount > 0 {
        assert w' == w + [rs[n]] && idx' == idx + [n];
      } else {
        assert w' == w && idx' == idx;
      }
      forall k | 0 <= k < |w'|
        ensures idx'[k] < |rs| && w'[k] == rs[idx'[k]]
      {
        if k < |w| {
          assert w'[k] == w[k] && idx'[k] == idx[k] && pre[idx[k]] == rs[idx[k]];
        }
      }
    }
  }

  /** The filter's length, `posting_count`, is the number of results that mention cluster `c`. */
  lemma WithMatchesCount(rs: seq<PostingResult>, c: nat)
    requires HasCluster(rs, c)
    ensures |WithMatches(rs, c)| == |set i: nat | i < |rs| && rs[i].skills[c].matchCount > 0|
  {
    WithMatchesSubsequence(rs, c);
    MentionIndicesSpec(rs, c);
    var idx := MentionIndices(rs, c);
    var mentions := set i: nat | i < |rs| && rs[i].skills[c].matchCount > 0;
    IncreasingCardinality(idx, mentions);
  }

  /** Every skill id of cluster `c`, posting after posting, each posting's ids in `matched` order. */
  function SkillIds(rs: seq<PostingResult>, c: nat): seq<string>
    requires HasCluster(rs, c)
    decreases |rs|
  {
    if |rs| == 0 then []
    else SkillIds(rs[..|rs| - 1], c) + Ids(rs[|rs| - 1].skills[c].matched)
  }

  /** The postings whose cluster `c` records skill `id`. */
  function WithSkill(rs: seq<PostingResult>, c: nat, id: string): seq<PostingResult>
    requires HasCluster(rs, c)
    decreases |rs|
  {
    if |rs| == 0 then []
    else
      var last := rs[|rs| - 1];
      WithSkill(rs[..|rs| - 1], c, id) + if id in Ids(last.skills[c].matched) then [last] else []
  }

  /** `clusterFrequency[clusterId]`. */
  datatype ClusterFrequency = ClusterFrequency(
    clusterId: string,
    clusterLabel: string,
    postingCount: nat,
    percentage: Percent,
    topSkills: seq<SkillCount>)

  /** Cluster `c`'s frequency entry once the counting loop has seen `rs`. */
  function Tallied(rs: seq<PostingResult>, tax: seq<Cluster>, c: nat): ClusterFrequency
    requires c < |tax| && HasCluster(rs, c)
  {
    ClusterFrequency(tax[c].id, tax[c].displayLabel, |WithMatches(rs, c)|, Whole(0), Tally(SkillIds(rs, c)))
  }

  /** Cluster `c`'s final frequency entry: percentage of `total`, skills ranked by count. */
  function ClusterFrequencyOf(rs: seq<PostingResult>, tax: seq<Cluster>, c: nat, total: nat): ClusterFrequency
    requires c < |tax| && HasCluster(rs, c)
  {
    var n := |WithMatches(rs, c)|;
    ClusterFrequency(tax[c].id, tax[c].displayLabel, n, Percentage(n, total), SortByCount(Tally(SkillIds(rs, c))))
  }

  /** Tallying one more id is one more bump. */
  lemma TallySnoc(xs: seq<string>, id: string)
    ensures Tally(xs + [id]) == Bump(Tally(xs), id)
  {
    assert (xs + [id])[..|xs|] == xs;
  }

  /** What one more posting adds to cluster `c`'s entry. */
  lemma TalliedSnoc(rs: seq<PostingResult>, r: PostingResult, tax: seq<Cluster>, c: nat)
    requires c < |tax| && HasCluster(rs + [r], c)
    ensures HasCluster(rs, c)
    ensures Tallied(rs + [r], tax, c) == Tallied(rs, tax, c).(
      postingCount := Tallied(rs, tax, c).postingCount + (if r.skills[c].matchCount > 0 then 1 else 0),
      topSkills := Tally(SkillIds(rs, c) + Ids(r.skills[c].matched)))
  {
    assert (rs + [r])[..|rs|] == rs;
  }

  /** The innermost loop: bump the tally once for each matched skill id. */
  method CountMatches(ghost seen: seq<string>, top: seq<SkillCount>, matched: seq<Match>) returns (r: seq<SkillCount>)
    requires top == Tally(seen)
    ensures r == Tally(seen + Ids(matched))
  {
    r := top;
    assert seen + Ids(matched[..0]) == seen;
    for m := 0 to |matched|
      invariant r == Tally(seen + Ids(matched[..m]))
    {
      var id := matched[m].id;
      assert Ids(matched[..m + 1]) == Ids(matched[..m]) + [id];
      assert seen + Ids(matched[..m + 1]) == (seen + Ids(matched[..m])) + [id];
      TallySnoc(seen + Ids(matched[..m]), id);
      r := Bump(r, id);
    }
    assert matched[..|matched|] == matched;
  }

  /**
   * The counting loops: start every cluster at zero, then for each posting and
   * cluster count the posting once if anything matched and bump each matched id.
   */
  method CountClusters(results: seq<PostingResult>, taxonomy: seq<Cluster>) returns (freq: seq<ClusterFrequency>)
    requires Covers(results, |taxonomy|)
    ensures |freq| == |taxonomy|
    ensures forall c :: 0 <= c < |taxonomy| ==> freq[c] == Tallied(results, taxonomy, c)
  {
    freq := [];
    for c := 0 to |taxonomy|
      invariant |freq| == c
      invariant forall d :: 0 <= d < c ==> freq[d] == Tallied([], taxonomy, d)
    {
      freq := freq + [ClusterFrequency(taxonomy[c].id, taxonomy[c].displayLabel, 0, Whole(0), [])];
    }
    for p := 0 to |results|
      invariant |freq| == |taxonomy|
      invariant forall c :: 0 <= c < |taxonomy| ==> freq[c] == Tallied(results[..p], taxonomy, c)
    {
      var result := results[p];
      assert results[..p + 1] == results[..p] + [result];
      for c := 0 to |taxonomy|
        invariant |freq| == |taxonomy|
        invariant forall d :: 0 <= d < c ==> freq[d] == Tallied(results[..p + 1], taxonomy, d)
        invariant forall d :: c <= d < |taxonomy| ==> freq[d] == Tallied(results[..p], taxonomy, d)
      {
        TalliedSnoc(results[..p], result, taxonomy, c);
        var clusterResult := result.skills[c];
        var entry := freq[c];
        if clusterResult.matchCount > 0 {
          entry := entry.(postingCount := entry.postingCount + 1);
        }
        var top := CountMatches(SkillIds(results[..p], c), entry.topSkills, clusterResult.matched);
        freq := freq[c := entry.(topSkills := top)];
      }
    }
    assert results[..|results|] == results;
  }

  /** The ranking loop: each cluster gets its percentage and its skills sorted by descending count. */
  method RankClusters(freq: seq<ClusterFrequency>, total: nat) returns (ranked: seq<ClusterFrequency>)
    ensures |ranked| == |freq|
    ensures forall c :: 0 <= c < |freq| ==>
      ranked[c] == freq[c].(percentage := Percentage(freq[c].postingCount, total),
                            topSkills := SortByCount(freq[c].topSkills))
  {
    ranked := freq;
    for c := 0 to |freq|
      invariant |ranked| == |freq|
      invariant forall d :: 0 <= d < c ==>
        ranked[d] == freq[d].(percentage := Percentage(freq[d].postingCount, total),
                              topSkills := SortByCount(freq[d].topSkills))
      invariant forall d :: c <= d < |freq| ==> ranked[d] == freq[d]
    {
      ranked := ranked[c := ranked[c].(percentage := Percentage(ranked[c].postingCount, total))];
      ranked := ranked[c := ranked[c].(topSkills := SortByCount(ranked[c].topSkills))];
    }
  }

  /** Skill `id` occurs in cluster `c`'s skill stream once per posting that records it, never more often than the cluster is mentioned. */
  lemma {:induction false} SkillIdsCountPostings(rs: seq<PostingResult>, n: nat, c: nat, id: string)
    requires Consistent(rs, n) && c < n
    ensures multiset(SkillIds(rs, c))[id] == |WithSkill(rs, c, id)|
    ensures |WithSkill(rs, c, id)| <= |WithMatches(rs, c)|
    decreases |rs|
  {
    if |rs| > 0 {
      var pre, last := rs[..|rs| - 1], rs[|rs| - 1];
      assert rs == pre + [last];
      SkillIdsCountPostings(pre, n, c, id);
      NoDupMultiplicity(Ids(last.skills[c].matched), id);
    }
  }

  /**
   * A cluster's frequency entry: its posting count lies within the total, its
   * percentage is defined for a non-empty batch and at most 100, and its skills
   * are the tally ranked by descending count, ties in first-encountered order,
   * each counting the postings that record it, at most the posting count.
   */
  lemma ClusterFrequencySpec(rs: seq<PostingResult>, tax: seq<Cluster>, c: nat)
    requires Consistent(rs, |tax|) && c < |tax|
    ensures var f := ClusterFrequencyOf(rs, tax, c, |rs|);
      && f.postingCount <= |rs|
      && (|rs| > 0 ==> f.percentage.Whole? && f.percentage.value <= 100)
      && NonIncreasing(f.topSkills)
      && multiset(f.topSkills) == multiset(Tally(SkillIds(rs, c)))
      && (forall k :: WithCount(f.topSkills, k) == WithCount(Tally(SkillIds(rs, c)), k))
      && NoDup(Keys(f.topSkills))
      && forall e :: e in f.topSkills ==> e.count == |WithSkill(rs, c, e.id)| <= f.postingCount
  {
    var ids := SkillIds(rs, c);
    var f := ClusterFrequencyOf(rs, tax, c, |rs|);
    SortByCountSpec(Tally(ids));
    TallySpec(ids);
    DistinctSpec(ids);
    forall e | e in f.topSkills
      ensures e.count == |WithSkill(rs, c, e.id)| <= f.postingCount
    {
      assert e in multiset(Tally(ids));
      var k :| 0 <= k < |Tally(ids)| && Tally(ids)[k] == e;
      SkillIdsCountPostings(rs, |tax|, c, e.id);
    }
    SortedKeysDistinct(Tally(ids));
  }

  /** A stable sort of entries with distinct keys leaves the keys distinct. */
  lemma SortedKeysDistinct(t: seq<SkillCount>)
    requires NoDup(Keys(t))
    ensures NoDup(Keys(SortByCount(t)))
  {
    var s := SortByCount(t);
    SortByCountSpec(t);
    forall i, j | 0 <= i < j < |s|
      ensures Keys(s)[i] != Keys(s)[j]
    {
      assert s[i] in multiset(t) && s[j] in multiset(t);
      var a :| 0 <= a < |t| && t[a] == s[i];
      var b :| 0 <= b < |t| && t[b] == s[j];
      if s[i] == s[j] {
        TwiceCounted(s, i, j);
        NoDupEntries(t, a);
      } else {
        assert a != b && Keys(t)[a] != Keys(t)[b];
      }
    }
  }

  /** An entry found at two positions occurs at least twice. */
  lemma TwiceCounted(s: seq<SkillCount>, i: nat, j: nat)
    requires i < j < |s| && s[i] == s[j]
    ensures multiset(s)[s[i]] >= 2
  {
    assert s == s[..j] + [s[j]] + s[j + 1..];
    assert s[..j][i] == s[i];
    assert multiset(s[..j])[s[i]] >= 1;
  }

  /** With distinct keys, each entry occurs once. */
  lemma NoDupEntries(t: seq<SkillCount>, a: nat)
    requires NoDup(Keys(t)) && a < |t|
    ensures multiset(t)[t[a]] == 1
  {
    assert NoDup(t) by {
      forall i, j | 0 <= i < j < |t| ensures t[i] != t[j] { assert Keys(t)[i] != Keys(t)[j]; }
    }
    NoDupMultiplicity(t, t[a]);
  }

  /** The field a slice groups by. */
  datatype Dimension = Region | Seniority

  function FieldOf(p: Posting, d: Dimension): string
  {
    match d
    case Region => p.region
    case Seniority => p.seniority
  }

  /** `postings.map(p => p.region)` (or `p.seniority`). */
  function Fields(ps: seq<Posting>, d: Dimension): seq<string>
  {
    seq(|ps|, i requires 0 <= i < |ps| => FieldOf(ps[i], d))
  }

  /** `[...new Set(postings.map(p => p.region))]`: the group keys, in first-seen order. */
  function GroupKeys(ps: seq<Posting>, d: Dimension): seq<string>
  {
    Distinct(Fields(ps, d))
  }

  /** `postings.find(op => op.id === id)`: the first posting with that id. */
  function Find(ps: seq<Posting>, id: string): (r: Option<Posting>)
    ensures r.Some? ==> r.value in ps && r.value.id == id
    ensures r.None? ==> forall i :: 0 <= i < |ps| ==> ps[i].id != id
  {
    if |ps| == 0 then None
    else if ps[0].id == id then Some(ps[0])
    else Find(ps[1..], id)
  }

  /** `find` returns the first posting with the id: the one at position `i` when none before it has that id. */
  lemma {:induction false} FindFirst(ps: seq<Posting>, id: string, i: nat)
    requires i < |ps| && ps[i].id == id
    requires forall j :: 0 <= j < i ==> ps[j].id != id
    ensures Find(ps, id) == Some(ps[i])
    decreases i
  {
    if i > 0 {
      assert ps[0].id != id;
      FindFirst(ps[1..], id, i - 1);
    }
  }

  /** `postings.find(op => op.id === r.id)?.region === key`. */
  predicate InGroup(ps: seq<Posting>, r: PostingResult, d: Dimension, key: string)
  {
    var f := Find(ps, r.id);
    f.Some? && FieldOf(f.value, d) == key
  }

  /** `postingResults.filter(p => InGroup(...))`. */
  function GroupMembers(ps: seq<Posting>, rs: seq<PostingResult>, d: Dimension, key: string): (m: seq<PostingResult>)
    ensures |m| <= |rs|
    ensures forall r :: r in m ==> r in rs
    decreases |rs|
  {
    if |rs| == 0 then []
    else
      var pre, last := rs[..|rs| - 1], rs[|rs| - 1];
      assert rs == pre + [last];
      GroupMembers(ps, pre, d, key) + if InGroup(ps, last, d, key) then [last] else []
  }

  /** A result is a member exactly when it is one of the results and the posting found by its id has the group's key. */
  lemma {:induction false} GroupMembersSpec(ps: seq<Posting>, rs: seq<PostingResult>, d: Dimension, key: string)
    ensures forall r :: r in GroupMembers(ps, rs, d, key) <==> r in rs && InGroup(ps, r, d, key)
    decreases |rs|
  {
    if |rs| > 0 {
      var pre, last := rs[..|rs| - 1], rs[|rs| - 1];
      GroupMembersSpec(ps, pre, d, key);
      assert rs == pre + [last];
    }
  }

  /** With unique ids, a result joins a group exactly when the posting at its own position has the group's key. */
  lemma GroupMembersByField(ps: seq<Posting>, rs: seq<PostingResult>, d: Dimension, key: string, r: PostingResult)
    requires UniqueIds(ps) && Aligned(ps, rs)
    ensures r in GroupMembers(ps, rs, d, key) <==> exists i :: 0 <= i < |rs| && rs[i] == r && FieldOf(ps[i], d) == key
  {
    GroupMembersSpec(ps, rs, d, key);
    if r in rs {
      var i :| 0 <= i < |rs| && rs[i] == r;
      FindUnique(ps, i);
      forall j | 0 <= j < |rs| && rs[j] == r
        ensures FieldOf(ps[j], d) == FieldOf(ps[i], d)
      {
        FindUnique(ps, j);
      }
    }
  }

  /** `{ count, percentage }` of one cluster within a group. */
  datatype ClusterCount = ClusterCount(clusterId: string, count: nat, percentage: Percent)

  /** `byRegion[key]` (or `bySeniority[key]`). */
  datatype Group = Group(key: string, count: nat, clusters: seq<ClusterCount>)

  /** How many of `members` mention cluster `c`, and what share of them that is. */
  function ClusterCountOf(members: seq<PostingResult>, tax: seq<Cluster>, c: nat): ClusterCount
    requires c < |tax| && HasCluster(members, c)
  {
    var n := |WithMatches(members, c)|;
    ClusterCount(tax[c].id, n, Percentage(n, |members|))
  }

  function GroupOf(ps: seq<Posting>, rs: seq<PostingResult>, tax: seq<Cluster>, d: Dimension, key: string): Group
    requires Covers(rs, |tax|)
  {
    var members := GroupMembers(ps, rs, d, key);
    Group(key, |members|, seq(|tax|, c requires 0 <= c < |tax| => ClusterCountOf(members, tax, c)))
  }

  /** `byRegion` (or `bySeniority`): one group per key, in key order. */
  function GroupsOf(ps: seq<Posting>, rs: seq<PostingResult>, tax: seq<Cluster>, d: Dimension): seq<Group>
    requires Covers(rs, |tax|)
  {
    var keys := GroupKeys(ps, d);
    seq(|keys|, g requires 0 <= g < |keys| => GroupOf(ps, rs, tax, d, keys[g]))
  }

  /** The inner slicing loop: count, cluster by cluster, the members that mention it. */
  method CountWithin(members: seq<PostingResult>, taxonomy: seq<Cluster>) returns (clusters: seq<ClusterCount>)
    requires Covers(members, |taxonomy|)
    ensures |clusters| == |taxonomy|
    ensures forall c :: 0 <= c < |taxonomy| ==> clusters[c] == ClusterCountOf(members, taxonomy, c)
  {
    clusters := [];
    for c := 0 to |taxonomy|
      invariant |clusters| == c
      invariant forall e :: 0 <= e < c ==> clusters[e] == ClusterCountOf(members, taxonomy, e)
    {
      var count := |WithMatches(members, c)|;
      clusters := clusters + [ClusterCount(taxonomy[c].id, count, Percentage(count, |members|))];
    }
  }

  /** The slicing loops: for each key, filter its members, then count each cluster among them. */
  method SliceBy(postings: seq<Posting>, results: seq<PostingResult>, taxonomy: seq<Cluster>, dimension: Dimension)
    returns (groups: seq<Group>)
    requires Covers(results, |taxonomy|)
    ensures groups == GroupsOf(postings, results, taxonomy, dimension)
  {
    var keys := GroupKeys(postings, dimension);
    groups := [];
    for g := 0 to |keys|
      invariant |groups| == g
      invariant forall h :: 0 <= h < g ==> groups[h] == GroupOf(postings, results, taxonomy, dimension, keys[h])
    {
      var key := keys[g];
      var members := GroupMembers(postings, results, dimension, key);
      var clusters := CountWithin(members, taxonomy);
      groups := groups + [Group(key, |members|, clusters)];
    }
  }

  /** No two postings share an id. */
  predicate UniqueIds(ps: seq<Posting>)
  {
    forall i, j :: 0 <= i < j < |ps| ==> ps[i].id != ps[j].id
  }

  /** With unique ids, looking a posting up by its own id finds it. */
  lemma {:induction false} FindUnique(ps: seq<Posting>, i: nat)
    requires UniqueIds(ps) && i < |ps|
    ensures Find(ps, ps[i].id) == Some(ps[i])
    decreases i
  {
    if i > 0 {
      assert ps[0].id != ps[i].id;
      assert UniqueIds(ps[1..]) by {
        forall a, b | 0 <= a < b < |ps| - 1 ensures ps[1..][a].id != ps[1..][b].id {
          assert ps[a + 1].id != ps[b + 1].id;
        }
      }
      FindUnique(ps[1..], i - 1);
    }
  }

  /** With unique ids, result `k - 1` joins a group exactly when posting `k - 1` has the group's key. */
  lemma GroupMembersStep(ps: seq<Posting>, rs: seq<PostingResult>, d: Dimension, key: string, k: nat)
    requires UniqueIds(ps) && Aligned(ps, rs) && 0 < k <= |ps|
    ensures |GroupMembers(ps, rs[..k], d, key)|
         == |GroupMembers(ps, rs[..k - 1], d, key)| + if FieldOf(ps[k - 1], d) == key then 1 else 0
  {
    var pre, last := rs[..k][..k - 1], rs[..k][k - 1];
    assert pre == rs[..k - 1] && last == rs[k - 1];
    FindUnique(ps, k - 1);
    assert InGroup(ps, last, d, key) <==> FieldOf(ps[k - 1], d) == key;
  }

  /** The occurrences of `key` among the first `k` field values, one value at a time. */
  lemma FieldsStep(ps: seq<Posting>, d: Dimension, key: string, k: nat)
    requires 0 < k <= |ps|
    ensures multiset(Fields(ps, d)[..k])[key]
         == multiset(Fields(ps, d)[..k - 1])[key] + if FieldOf(ps[k - 1], d) == key then 1 else 0
  {
    var fs := Fields(ps, d);
    assert fs[..k] == fs[..k - 1] + [fs[k - 1]];
  }

  /** With unique ids, the first `k` results contribute to a group once per posting among the first `k` with that key. */
  lemma {:induction false} GroupSize(ps: seq<Posting>, rs: seq<PostingResult>, d: Dimension, key: string, k: nat)
    requires UniqueIds(ps) && Aligned(ps, rs) && k <= |ps|
    ensures |GroupMembers(ps, rs[..k], d, key)| == multiset(Fields(ps, d)[..k])[key]
    decreases k
  {
    if k == 0 {
      assert rs[..0] == [] && Fields(ps, d)[..0] == [];
    } else {
      GroupSize(ps, rs, d, key, k - 1);
      var members := |GroupMembers(ps, rs[..k - 1], d, key)|;
      var occurrences := multiset(Fields(ps, d)[..k - 1])[key];
      assert members == occurrences;
      GroupMembersStep(ps, rs, d, key, k);
      FieldsStep(ps, d, key, k);
    }
  }

  /** Sum of the group counts. */
  function TotalCount(gs: seq<Group>): nat
  {
    if |gs| == 0 then 0 else gs[0].count + TotalCount(gs[1..])
  }

  /** With unique ids, a group's count is the number of postings with its key. */
  lemma GroupCount(ps: seq<Posting>, rs: seq<PostingResult>, tax: seq<Cluster>, d: Dimension, key: string)
    requires UniqueIds(ps) && Aligned(ps, rs) && Covers(rs, |tax|)
    ensures GroupOf(ps, rs, tax, d, key).count == multiset(Fields(ps, d))[key]
  {
    GroupSize(ps, rs, d, key, |ps|);
    assert rs[..|ps|] == rs;
    assert Fields(ps, d)[..|ps|] == Fields(ps, d);
  }

  lemma {:induction false} GroupCountsSum(ps: seq<Posting>, rs: seq<PostingResult>, tax: seq<Cluster>, d: Dimension, keys: seq<string>)
    requires UniqueIds(ps) && Aligned(ps, rs) && Covers(rs, |tax|)
    ensures TotalCount(seq(|keys|, g requires 0 <= g < |keys| => GroupOf(ps, rs, tax, d, keys[g])))
      == SumOccurrences(keys, Fields(ps, d))
    decreases |keys|
  {
    if |keys| > 0 {
      var gs := seq(|keys|, g requires 0 <= g < |keys| => GroupOf(ps, rs, tax, d, keys[g]));
      var rest := seq(|keys[1..]|, g requires 0 <= g < |keys[1..]| => GroupOf(ps, rs, tax, d, keys[1..][g]));
      GroupCountsSum(ps, rs, tax, d, keys[1..]);
      assert gs[1..] == rest;
      GroupCount(ps, rs, tax, d, keys[0]);
      assert TotalCount(gs) == gs[0].count + TotalCount(rest);
    }
  }

  /** With unique ids, slicing is a partition: the group counts add up to the number of postings. */
  lemma GroupCountsSumToTotal(ps: seq<Posting>, rs: seq<PostingResult>, tax: seq<Cluster>, d: Dimension)
    requires UniqueIds(ps) && Aligned(ps, rs) && Covers(rs, |tax|)
    ensures TotalCount(GroupsOf(ps, rs, tax, d)) == |ps|
  {
    GroupCountsSum(ps, rs, tax, d, GroupKeys(ps, d));
    DistinctOccurrencesSum(Fields(ps, d));
  }

  /**
   * With unique ids every group is non-empty, and within it each cluster count
   * is at most the group's count, so each percentage is a whole number in [0, 100].
   */
  lemma GroupPercentagesBounded(ps: seq<Posting>, rs: seq<PostingResult>, tax: seq<Cluster>, d: Dimension, g: nat)
    requires UniqueIds(ps) && Aligned(ps, rs) && Covers(rs, |tax|)
    requires g < |GroupKeys(ps, d)|
    ensures var grp := GroupsOf(ps, rs, tax, d)[g];
      && grp.key == GroupKeys(ps, d)[g]
      && grp.count > 0
      && |grp.clusters| == |tax|
      && forall c :: 0 <= c < |tax| ==>
           grp.clusters[c].count <= grp.count && grp.clusters[c].percentage.Whole? && grp.clusters[c].percentage.value <= 100
  {
    var key := GroupKeys(ps, d)[g];
    DistinctSpec(Fields(ps, d));
    assert key in Fields(ps, d);
    GroupCount(ps, rs, tax, d, key);
    var grp := GroupsOf(ps, rs, tax, d)[g];
    var members := GroupMembers(ps, rs, d, key);
    assert grp == GroupOf(ps, rs, tax, d, key);
    assert grp.count == |members| > 0;
    forall c | 0 <= c < |tax|
      ensures grp.clusters[c].count <= grp.count
      ensures grp.clusters[c].percentage.Whole? && grp.clusters[c].percentage.value <= 100
    {
      assert grp.clusters[c] == ClusterCountOf(members, tax, c);
    }
  }

  /** A group whose lookup admits every result holds all of them. */
  lemma {:induction false} GroupMembersAll(ps: seq<Posting>, rs: seq<PostingResult>, d: Dimension, key: string)
    requires forall i :: 0 <= i < |rs| ==> InGroup(ps, rs[i], d, key)
    ensures GroupMembers(ps, rs, d, key) == rs
    decreases |rs|
  {
    if |rs| > 0 {
      var pre, last := rs[..|rs| - 1], rs[|rs| - 1];
      assert forall i :: 0 <= i < |pre| ==> pre[i] == rs[i];
      GroupMembersAll(ps, pre, d, key);
      assert InGroup(ps, last, d, key);
      assert rs == pre + [last];
    }
  }

  /** A group whose lookup admits no result is empty. */
  lemma {:induction false} GroupMembersNone(ps: seq<Posting>, rs: seq<PostingResult>, d: Dimension, key: string)
    requires forall i :: 0 <= i < |rs| ==> !InGroup(ps, rs[i], d, key)
    ensures GroupMembers(ps, rs, d, key) == []
    decreases |rs|
  {
    if |rs| > 0 {
      var pre, last := rs[..|rs| - 1], rs[|rs| - 1];
      assert forall i :: 0 <= i < |pre| ==> pre[i] == rs[i];
      GroupMembersNone(ps, pre, d, key);
      assert !InGroup(ps, last, d, key);
    }
  }

  /** Two postings that share the id "x": one in the US, one in the EU. */
  const SharedIdUs: Posting := Posting("x", "Acme", None, "US", "Senior", "open", None, None, None, None)
  const SharedIdEu: Posting := Posting("x", "Beta", None, "EU", "Senior", "open", None, None, None, None)

  lemma SharedIdKeys()
    ensures GroupKeys([SharedIdUs, SharedIdEu], Region) == ["US", "EU"]
  {
    var fs := Fields([SharedIdUs, SharedIdEu], Region);
    assert fs == ["US", "EU"];
    assert fs[..1] == ["US"] && fs[..1][..0] == [];
    assert Distinct(fs[..1]) == ["US"];
  }

  lemma SharedIdLookup(rs: seq<PostingResult>)
    requires Aligned([SharedIdUs, SharedIdEu], rs)
    ensures forall i :: 0 <= i < |rs| ==>
      InGroup([SharedIdUs, SharedIdEu], rs[i], Region, "US") && !InGroup([SharedIdUs, SharedIdEu], rs[i], Region, "EU")
  {
    assert Find([SharedIdUs, SharedIdEu], "x") == Some(SharedIdUs);
  }

  /**
   * Two postings sharing an id, whatever the taxonomy and their results: the
   * lookup by id sends both results to the first one's region and leaves the
   * second region empty, so every cluster share of that region is `NaN`.
   */
  lemma DuplicateIdsMisgroup(rs: seq<PostingResult>, tax: seq<Cluster>)
    requires Aligned([SharedIdUs, SharedIdEu], rs) && Covers(rs, |tax|)
    ensures var gs := GroupsOf([SharedIdUs, SharedIdEu], rs, tax, Region);
      && |gs| == 2
      && gs[0].key == "US" && gs[0].count == 2
      && gs[1].key == "EU" && gs[1].count == 0
      && forall c :: 0 <= c < |tax| ==> gs[1].clusters[c].percentage.NotFinite?
  {
    var ps := [SharedIdUs, SharedIdEu];
    SharedIdKeys();
    SharedIdLookup(rs);
    GroupMembersAll(ps, rs, Region, "US");
    GroupMembersNone(ps, rs, Region, "EU");
  }

  /** One entry of `ai_deep_dive.companies`. */
  datatype AiCompany = AiCompany(company: string, title: Option<string>, aiSkillsFound: seq<string>)

  /** `ai_deep_dive`. */
  datatype AiDeepDive = AiDeepDive(
    totalWithAi: nat,
    percentage: Percent,
    companies: seq<AiCompany>,
    specificSkills: seq<SkillCount>)

  /** The deep dive over the AI cluster at position `ai`, against `total` postings. */
  function DeepDiveOf(rs: seq<PostingResult>, ai: nat, total: nat): AiDeepDive
    requires HasCluster(rs, ai)
  {
    var mentions := WithMatches(rs, ai);
    AiDeepDive(
      |mentions|,
      Percentage(|mentions|, total),
      seq(|mentions|, i requires 0 <= i < |mentions| =>
        AiCompany(mentions[i].company, mentions[i].title, Ids(mentions[i].skills[ai].matched))),
      Tally(SkillIds(mentions, ai)))
  }

  /** One more posting appends its matched ids to the skill stream. */
  lemma SkillIdsSnoc(rs: seq<PostingResult>, r: PostingResult, c: nat)
    requires HasCluster(rs + [r], c)
    ensures HasCluster(rs, c)
    ensures SkillIds(rs + [r], c) == SkillIds(rs, c) + Ids(r.skills[c].matched)
  {
    assert (rs + [r])[..|rs|] == rs;
  }

  /** The deep-dive code: filter the AI mentions, list them, and bump a counter per AI skill found. */
  method DiveIntoAi(results: seq<PostingResult>, ai: nat, total: nat) returns (dive: AiDeepDive)
    requires HasCluster(results, ai)
    ensures dive == DeepDiveOf(results, ai, total)
  {
    var aiMentions := WithMatches(results, ai);
    var companies := seq(|aiMentions|, i requires 0 <= i < |aiMentions| =>
      AiCompany(aiMentions[i].company, aiMentions[i].title, Ids(aiMentions[i].skills[ai].matched)));
    var specific: seq<SkillCount> := [];
    for p := 0 to |aiMentions|
      invariant specific == Tally(SkillIds(aiMentions[..p], ai))
    {
      var mention := aiMentions[p];
      assert aiMentions[..p + 1] == aiMentions[..p] + [mention];
      SkillIdsSnoc(aiMentions[..p], mention, ai);
      specific := CountMatches(SkillIds(aiMentions[..p], ai), specific, mention.skills[ai].matched);
    }
    assert aiMentions[..|aiMentions|] == aiMentions;
    dive := AiDeepDive(|aiMentions|, Percentage(|aiMentions|, total), companies, specific);
  }

  /** Postings without a match in cluster `c` contribute no skill ids to it. */
  lemma {:induction false} MentionsCarryAllSkillIds(rs: seq<PostingResult>, n: nat, c: nat)
    requires Consistent(rs, n) && c < n
    ensures SkillIds(WithMatches(rs, c), c) == SkillIds(rs, c)
    decreases |rs|
  {
    if |rs| > 0 {
      var pre, last := rs[..|rs| - 1], rs[|rs| - 1];
      assert rs == pre + [last];
      assert Consistent(pre, n) by {
        assert forall r :: r in pre ==> r in rs;
      }
      MentionsCarryAllSkillIds(pre, n, c);
      var w := WithMatches(pre, c);
      assert SkillIds(rs, c) == SkillIds(pre, c) + Ids(last.skills[c].matched);
      assert last in rs;
      if last.skills[c].matchCount > 0 {
        assert WithMatches(rs, c) == w + [last];
        assert (w + [last])[..|w|] == w;
        assert SkillIds(w + [last], c) == SkillIds(w, c) + Ids(last.skills[c].matched);
      } else {
        assert WithMatches(rs, c) == w;
        assert |last.skills[c].matched| == 0;
        assert Ids(last.skills[c].matched) == [];
      }
    }
  }

  /**
   * The deep dive agrees with the cluster frequencies: as many AI postings as
   * the AI cluster's posting count, the same percentage, one company entry per
   * AI posting listing its skill ids (never empty), and per-skill counts equal
   * to the AI cluster's unsorted tally, whose ranking is its `top_skills`.
   */
  lemma AiDeepDiveAgrees(rs: seq<PostingResult>, tax: seq<Cluster>, ai: nat)
    requires Consistent(rs, |tax|) && ai < |tax|
    ensures var dive, f := DeepDiveOf(rs, ai, |rs|), ClusterFrequencyOf(rs, tax, ai, |rs|);
      && dive.totalWithAi == f.postingCount
      && dive.percentage == f.percentage
      && |dive.companies| == dive.totalWithAi
      && (forall i :: 0 <= i < |dive.companies| ==>
            dive.companies[i].aiSkillsFound == Ids(WithMatches(rs, ai)[i].skills[ai].matched) &&
            |dive.companies[i].aiSkillsFound| > 0)
      && dive.specificSkills == Tally(SkillIds(rs, ai))
      && f.topSkills == SortByCount(dive.specificSkills)
  {
    MentionsCarryAllSkillIds(rs, |tax|, ai);
    var w := WithMatches(rs, ai);
    forall i | 0 <= i < |w|
      ensures |Ids(w[i].skills[ai].matched)| > 0
    {
      assert w[i] in w;
    }
  }

  /** `metadata`; the date stamp is supplied by the caller. */
  datatype Metadata = Metadata(
    totalPostings: nat,
    dateAnalyzed: string,
    regions: seq<string>,
    seniorityLevels: seq<string>,
    companies: seq<string>)

  /** The document `analyzePostings` returns. */
  datatype Analysis = Analysis(
    metadata: Metadata,
    clusterFrequency: seq<ClusterFrequency>,
    byRegion: seq<Group>,
    bySeniority: seq<Group>,
    aiDeepDive: AiDeepDive,
    perPosting: seq<PostingResult>)

  /** `p.skills.ai_skills.match_count` on a taxonomy without that cluster throws a TypeError. */
  datatype AnalysisError = MissingAiCluster

  /** `postings.map(p => p.company)`. */
  function Companies(ps: seq<Posting>): seq<string>
  {
    seq(|ps|, i requires 0 <= i < |ps| => ps[i].company)
  }

  /** The analysis succeeds unless some posting has to be read at a missing AI cluster. */
  predicate Analyzable(ps: seq<Posting>, tax: seq<Cluster>)
  {
    |ps| == 0 || ClusterIndex(tax, AiClusterId).Some?
  }

  /** The document produced for `ps` when the analysis succeeds. */
  function AnalysisOf(ps: seq<Posting>, tax: seq<Cluster>, date: string): Analysis
    requires Analyzable(ps, tax)
  {
    var rs := Results(ps, tax);
    Analysis(
      Metadata(|ps|, date, GroupKeys(ps, Region), GroupKeys(ps, Seniority), Distinct(Companies(ps))),
      seq(|tax|, c requires 0 <= c < |tax| => ClusterFrequencyOf(rs, tax, c, |ps|)),
      GroupsOf(ps, rs, tax, Region),
      GroupsOf(ps, rs, tax, Seniority),
      DeepDiveOf(rs, ClusterIndex(tax, AiClusterId).GetOr(0), |ps|),
      rs)
  }

  /**
   * `analyzePostings(postings, taxonomy)`, with the run date passed in. It fails
   * exactly when there are postings and the taxonomy has no AI cluster.
   */
  method AnalyzePostings(postings: seq<Posting>, taxonomy: seq<Cluster>, dateAnalyzed: string)
    returns (r: Result<Analysis, AnalysisError>)
    requires DistinctClusterIds(taxonomy)
    ensures r.Failure? <==> !Analyzable(postings, taxonomy)
    ensures r.Success? ==> r.value == AnalysisOf(postings, taxonomy, dateAnalyzed)
  {
    var results := AnalyzeEach(postings, taxonomy);
    var tallied := CountClusters(results, taxonomy);
    var total := |postings|;
    var clusterFrequency := RankClusters(tallied, total);
    var byRegion := SliceBy(postings, results, taxonomy, Region);
    var bySeniority := SliceBy(postings, results, taxonomy, Seniority);
    var ai := ClusterIndex(taxonomy, AiClusterId);
    if ai.None? && |results| > 0 {
      return Failure(MissingAiCluster);
    }
    var aiAnalysis := DiveIntoAi(results, ai.GetOr(0), total);
    var metadata := Metadata(total, dateAnalyzed, GroupKeys(postings, Region), GroupKeys(postings, Seniority),
                             Distinct(Companies(postings)));
    r := Success(Analysis(metadata, clusterFrequency, byRegion, bySeniority, aiAnalysis, results));
    assert clusterFrequency == seq(|taxonomy|, c requires 0 <= c < |taxonomy| => ClusterFrequencyOf(results, taxonomy, c, total));
  }

  /** The metadata lists are the distinct regions, seniority levels and companies, in first-seen order. */
  lemma MetadataSpec(ps: seq<Posting>, tax: seq<Cluster>, date: string)
    requires Analyzable(ps, tax)
    ensures var m := AnalysisOf(ps, tax, date).metadata;
      && m.totalPostings == |AnalysisOf(ps, tax, date).perPosting| == |ps|
      && NoDup(m.regions) && (forall x :: x in m.regions <==> x in Fields(ps, Region))
      && NoDup(m.seniorityLevels) && (forall x :: x in m.seniorityLevels <==> x in Fields(ps, Seniority))
      && NoDup(m.companies) && (forall x :: x in m.companies <==> x in Companies(ps))
      && (forall i, j :: 0 <= i < j < |m.regions| ==>
            m.regions[i] in Fields(ps, Region) && m.regions[j] in Fields(ps, Region) &&
            FirstIndex(Fields(ps, Region), m.regions[i]) < FirstIndex(Fields(ps, Region), m.regions[j]))
      && (forall i, j :: 0 <= i < j < |m.seniorityLevels| ==>
            m.seniorityLevels[i] in Fields(ps, Seniority) && m.seniorityLevels[j] in Fields(ps, Seniority) &&
            FirstIndex(Fields(ps, Seniority), m.seniorityLevels[i]) < FirstIndex(Fields(ps, Seniority), m.seniorityLevels[j]))
      && (forall i, j :: 0 <= i < j < |m.companies| ==>
            m.companies[i] in Companies(ps) && m.companies[j] in Companies(ps) &&
            FirstIndex(Companies(ps), m.companies[i]) < FirstIndex(Companies(ps), m.companies[j]))
  {
    DistinctSpec(Fields(ps, Region));
    DistinctSpec(Fields(ps, Seniority));
    DistinctSpec(Companies(ps));
  }

  /** Every cluster's posting count is within the total and, for a non-empty batch, its percentage within [0, 100]. */
  lemma ClusterFrequenciesBounded(ps: seq<Posting>, tax: seq<Cluster>, date: string, c: nat)
    requires Analyzable(ps, tax) && c < |tax|
    ensures var f := AnalysisOf(ps, tax, date).clusterFrequency;
      && |f| == |tax|
      && f[c].postingCount <= |ps|
      && (|ps| > 0 ==> f[c].percentage.Whole? && f[c].percentage.value <= 100)
  {
    ClusterFrequencySpec(Results(ps, tax), tax, c);
  }

  /** With unique posting ids, `by_region` and `by_seniority` each partition the postings. */
  lemma SlicesPartition(ps: seq<Posting>, tax: seq<Cluster>, date: string)
    requires Analyzable(ps, tax) && UniqueIds(ps)
    ensures TotalCount(AnalysisOf(ps, tax, date).byRegion) == |ps|
    ensures TotalCount(AnalysisOf(ps, tax, date).bySeniority) == |ps|
  {
    GroupCountsSumToTotal(ps, Results(ps, tax), tax, Region);
    GroupCountsSumToTotal(ps, Results(ps, tax), tax, Seniority);
  }

  /**
   * With unique ids, each result belongs to exactly one group of a slice: the
   * one keyed by its own posting's field, which is one of the slice's keys.
   */
  lemma PostingInOneGroup(ps: seq<Posting>, rs: seq<PostingResult>, d: Dimension, i: nat)
    requires UniqueIds(ps) && Aligned(ps, rs) && i < |rs|
    ensures FieldOf(ps[i], d) in GroupKeys(ps, d)
    ensures forall key :: rs[i] in GroupMembers(ps, rs, d, key) <==> key == FieldOf(ps[i], d)
  {
    DistinctSpec(Fields(ps, d));
    assert Fields(ps, d)[i] == FieldOf(ps[i], d);
    forall key
      ensures rs[i] in GroupMembers(ps, rs, d, key) <==> key == FieldOf(ps[i], d)
    {
      GroupMembersByField(ps, rs, d, key, rs[i]);
      if rs[i] in GroupMembers(ps, rs, d, key) {
        var j :| 0 <= j < |rs| && rs[j] == rs[i] && FieldOf(ps[j], d) == key;
        assert ps[j].id == ps[i].id;
        assert j == i;
      }
    }
  }

  /** In the document, the deep dive counts as many postings as the AI cluster's frequency entry, and with the same skill counts. */
  lemma DocumentAiAgrees(ps: seq<Posting>, tax: seq<Cluster>, date: string)
    requires ClusterIndex(tax, AiClusterId).Some?
    ensures var a, ai := AnalysisOf(ps, tax, date), ClusterIndex(tax, AiClusterId).value;
      && a.aiDeepDive.totalWithAi == a.clusterFrequency[ai].postingCount
      && a.aiDeepDive.percentage == a.clusterFrequency[ai].percentage
      && a.clusterFrequency[ai].topSkills == SortByCount(a.aiDeepDive.specificSkills)
  {
    AiDeepDiveAgrees(Results(ps, tax), tax, ClusterIndex(tax, AiClusterId).value);
  }
}
