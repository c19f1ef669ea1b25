# Content-design skills analysis, modelled in Dafny

This project models the analysis pipeline of `analyze.js`. The pipeline reads a batch of job postings
and matches each posting's free text against a fixed skill taxonomy. It then aggregates the matches
into one result document:

- a frequency per skill cluster, with that cluster's skills ranked by count;
- breakdowns by region and by seniority;
- a deep dive on the AI-skills cluster;
- metadata.

The modules follow the pipeline's stages:

- `Wrappers` (`wrappers.dfy`): `Option`, which stands for a JavaScript field that may be `undefined`, and `Result`, which stands for an operation that may throw.
- `Text` (`text.dfy`): the string built-ins the code relies on: `toLowerCase` (ASCII), `includes` (contiguous substring) and `join`.
- `Stats` (`stats.dfy`): the counting idioms. These are `[...new Set(xs)]`, object counters bumped with `if (!t[k]) t[k] = 0; t[k]++`, the stable `sort((a, b) => b[1] - a[1])`, and `Math.round(c / t * 100)` computed exactly in integers as `(200c + t) / (2t)`.
- `Taxonomy` (`taxonomy.dfy`): keyword rules and clusters, and `SKILL_TAXONOMY` rule for rule.
- `Normalizer` (`normalizer.dfy`): `getCombinedText`.
- `Matcher` (`matcher.dfy`): `matchSkills`. It is an imperative method proved against the specification function `Scan`. Lemmas characterise `Scan` as "the first hit per skill id, in rule order".
- `Aggregator` (`aggregator.dfy`): `analyzePostings`. Each loop section of the original is a method proved against a specification function. Lemmas state the properties of the document: bounds, stable ranking, partition of the postings, and agreement of the AI deep dive with the cluster frequencies.

JavaScript objects whose key order matters are ordered sequences:

- Cluster results and cluster frequencies are sequences aligned with the taxonomy's clusters.
- Skill counters are association lists of `SkillCount`.
- Groups are sequences in first-seen key order (integer-like keys are discussed under "## Left out").

## Model

| member | source | states |
|---|---|---|
| `Text.LowerChar` | analyze.js:213 | a lowered character is never an ASCII capital; capitals become the matching small letter and every other character is unchanged |
| `Text.Lower` | analyze.js:213-220 | lowering keeps the length; each ASCII capital becomes its small letter and every other character is unchanged, so no ASCII capital is left |
| `Text.LowerIdempotent` | analyze.js:213 | lowering an already lowered text changes nothing |
| `Text.ContainsLower` | analyze.js:220 | if a phrase occurs in a text, the lowered phrase occurs in the lowered text |
| `Text.ContainsWithin` | analyze.js:220 | a phrase found inside a slice of a text is found in the text |
| `Text.JoinLength` | analyze.js:208 | a join is as long as all its parts plus one separator between each two |
| `Text.JoinPartAt` | analyze.js:208 | each part stands at its offset in the join, followed by the separator unless it is the last part |
| `Text.JoinContainsPart` | analyze.js:208 | anything found in one part is found in the join |
| `Normalizer.TextParts` | analyze.js:201-207 | the parts are the full text and the title, then every responsibility, requirement and nice-to-have; an absent list adds no part |
| `Normalizer.CombinedTextLayout` | analyze.js:200-209 | part `k` of the combined text stands at its offset, followed by a single space unless it is the last part |
| `Normalizer.FieldPhraseFound` | analyze.js:200-209 | a phrase found case-insensitively in any one field is found in the lowered combined text |
| `Taxonomy.ClusterIndex` | analyze.js:334 | the position of the cluster with the given id, if any, and it is the first with that id; none when no cluster has the id |
| `Taxonomy.SkillTaxonomyWellFormed` | analyze.js:22-193 | the shipped taxonomy has seven clusters with distinct ids, and `ai_skills` is the sixth |
| `Matcher.ScanRules` | analyze.js:216-225 | the rule loop records exactly `Scan` of the rules, and its id set holds exactly the recorded ids, so its size is the number of entries |
| `Matcher.MatchSkills` | analyze.js:211-236 | one entry per cluster, in taxonomy order; entry `c` depends only on cluster `c` and on the lowered text; `match_count` (the size of the id set) equals the number of entries pushed |
| `Matcher.SomeRuleHitsSnoc` | analyze.js:219-220 | some rule for an id hits in a list of rules iff it hits in all but the last rule or the last rule is for that id and hits |
| `Matcher.ScanIds` | analyze.js:216-225 | a skill id is recorded iff some rule with that id has a lowered phrase contained in the lowered text |
| `Matcher.ScanNoDuplicates` | analyze.js:216-224 | no skill id is recorded twice |
| `Matcher.ScanIsFirstHits` | analyze.js:219-225 | the entries are exactly the rules that hit while no earlier rule for the same id hits; they are in declaration order, each with that rule's phrase |
| `Matcher.MatchCountIsDistinctHits` | analyze.js:228-232 | `match_count` equals the length of `matched` and the number of distinct skill ids that some rule hits |
| `Matcher.MatchCaseInsensitive` | analyze.js:213-220 | replacing the text by its lowercase form changes no cluster's entry |
| `Stats.FirstIndex` | analyze.js:294 | the first position where a value occurs: it holds the value and no earlier position does |
| `Stats.FirstIndexSnoc` | analyze.js:294 | appending a value does not move the first occurrence of a value already present |
| `Stats.DistinctSpec` | analyze.js:294 | `[...new Set(xs)]` has no repeats, holds exactly the values of `xs`, and orders them by first occurrence |
| `Stats.NoDupCardinality` | analyze.js:230 | a sequence without repeats has as many elements as its set |
| `Stats.NoDupMultiplicity` | analyze.js:273-278 | in a sequence without repeats, every value occurs once or not at all |
| `Stats.BumpKeys` | analyze.js:274-277 | bumping appends the id as the last key when it is new and otherwise leaves the keys as they were |
| `Stats.BumpCounts` | analyze.js:274-277 | bumping adds one to the count under the bumped id and changes no other count |
| `Stats.BumpSpec` | analyze.js:274-277 | bumping adds one under the id and nothing elsewhere; a new id is appended as the last key and an existing id keeps its place |
| `Stats.CountOfEntry` | analyze.js:274-277 | with distinct keys, the count read under an entry's key is that entry's count |
| `Stats.TallyKeysCounts` | analyze.js:273-278 | bumping the ids one by one yields the distinct ids as keys, in first-seen order, each counting its occurrences |
| `Stats.TallySpec` | analyze.js:273-278 | a tally's keys are the distinct ids in first-seen order, and each count is the number of occurrences of its id, at least one |
| `Stats.InsertByCountPermutes` | analyze.js:288-289 | insertion adds exactly the inserted entry |
| `Stats.InsertByCountOrdered` | analyze.js:288-289 | insertion into a sequence ordered by descending count keeps it ordered |
| `Stats.InsertByCountTies` | analyze.js:288-289 | the inserted entry comes before the entries it ties with, and the order of the other entries is unchanged |
| `Stats.SortByCountPermutes` | analyze.js:288-289 | the sort holds exactly the entries of its input |
| `Stats.SortByCountOrdered` | analyze.js:288-289 | the sort is ordered by non-increasing count |
| `Stats.SortByCountStable` | analyze.js:288-289 | the entries of each count appear in the same order as in the input |
| `Stats.SortByCountSpec` | analyze.js:288-289 | the sort is ordered by non-increasing count, is a permutation of its input, and is stable: the entries of each count keep their input order |
| `Stats.Percentage` | analyze.js:285 | with a zero total the result is not finite; otherwise it is the integer nearest to `100 * count / total`, halves rounded up, and at most 100 when `count <= total` |
| `Stats.RoundingBounds` | analyze.js:285 | `(200 * count + total) / (2 * total)` is within half a unit of `100 * count / total`, and at most 100 when `count <= total` |
| `Stats.SumOccurrencesSnocX` | analyze.js:294-303 | appending a value adds one to the sum of group sizes iff the value is one of the distinct keys |
| `Stats.SumOccurrencesSnocKey` | analyze.js:294-303 | adding a key adds its group size to the sum |
| `Stats.DistinctOccurrencesSum` | analyze.js:294-303 | over the distinct values, the number of occurrences adds up to the length of the sequence |
| `Aggregator.Results` | analyze.js:241-255 | one result per posting, carrying that posting's id; every result has one entry per cluster, whose `match_count` is the length of a `matched` list that repeats no id |
| `Aggregator.AnalyzeEach` | analyze.js:241-255 | the per-posting loop yields the result of matching each posting's combined text, in input order |
| `Aggregator.WithMatches` | analyze.js:334 | the filtered postings are among the inputs, all mention the cluster, and are no more numerous than the inputs |
| `Aggregator.WithMatchesKeepsMentions` | analyze.js:334 | every input that mentions the cluster is kept by the filter |
| `Aggregator.MentionIndicesSpec` | analyze.js:334 | the mention positions are strictly increasing and within the results; a position is among them iff its result mentions the cluster |
| `Aggregator.WithMatchesSubsequence` | analyze.js:334 | the filter is exactly the results at the mention positions, in input order |
| `Aggregator.WithMatchesCount` | analyze.js:269-271 | the filter's length, which is `posting_count`, is the number of results whose cluster entry has `match_count > 0` |
| `Aggregator.CountMatches` | analyze.js:273-278 | bumping the counter once per matched id turns the tally of the ids seen so far into the tally of those ids followed by the matched ones |
| `Aggregator.CountClusters` | analyze.js:258-280 | after the counting loops each cluster's `posting_count` is the number of postings that mention it, and its `top_skills` is the tally of the skill ids matched across postings |
| `Aggregator.RankClusters` | analyze.js:282-291 | each cluster gets its percentage of the total and its skills sorted by descending count; nothing else changes |
| `Aggregator.SkillIdsCountPostings` | analyze.js:273-278 | a skill id's count is the number of postings that record it, never more than the cluster's posting count |
| `Aggregator.ClusterFrequencySpec` | analyze.js:268-291 | see the list under this table |
| `Aggregator.SortedKeysDistinct` | analyze.js:288-290 | ranking a counter with distinct keys leaves the keys distinct, so `Object.fromEntries` loses nothing |
| `Aggregator.NoDupEntries` | analyze.js:288-290 | in a counter with distinct keys each entry occurs once |
| `Aggregator.Find` | analyze.js:298 | a posting found by id is in the batch and has that id; when none is found, no posting has it |
| `Aggregator.FindFirst` | analyze.js:298 | the lookup returns the first posting with the id: the one at position `i` when no earlier posting has that id |
| `Aggregator.GroupMembers` | analyze.js:297-299 | the members are among the results and no more numerous (membership in both directions: `Aggregator.GroupMembersSpec`) |
| `Aggregator.GroupMembersSpec` | analyze.js:297-299 | a result is a member iff it is one of the results and the posting found by its id has the group's key |
| `Aggregator.GroupMembersByField` | analyze.js:297-299 | with unique ids, a result is a member iff the posting at its own position has the group's key |
| `Aggregator.CountWithin` | analyze.js:304-310 | one count per cluster, in taxonomy order: the members that mention it and its percentage of the members |
| `Aggregator.SliceBy` | analyze.js:293-331 | one group per distinct field value in first-seen order, each with its member count and, for every cluster, the number of members that mention it and the percentage of the group this is |
| `Aggregator.FindUnique` | analyze.js:298 | with unique ids, looking a posting up by its own id finds that posting |
| `Aggregator.GroupSize` | analyze.js:297-299 | with unique ids, the members among the first `k` results are as many as the postings among the first `k` whose field has the group's value |
| `Aggregator.GroupCount` | analyze.js:297-301 | with unique ids, a group's count is the number of postings whose field has the group's value |
| `Aggregator.GroupCountsSum` | analyze.js:294-303 | with unique ids, the group counts over any list of keys add up to the key occurrences |
| `Aggregator.GroupCountsSumToTotal` | analyze.js:293-331 | with unique ids, the group counts of a slice add up to the number of postings |
| `Aggregator.GroupPercentagesBounded` | analyze.js:304-310 | with unique ids every group is non-empty, each cluster count is at most the group's count, and each percentage is a whole number in [0, 100] |
| `Aggregator.DuplicateIdsMisgroup` | analyze.js:297-310 | for two postings with the same id, in regions US and EU, any taxonomy and any results aligned with them, the lookup by id puts both in US (count 2) and leaves EU with count 0, so every cluster percentage of EU is not finite (`NaN`) |
| `Aggregator.DiveIntoAi` | analyze.js:333-352 | the deep dive counts and lists the postings that mention the AI cluster, in input order with their skill ids, and tallies those skill ids |
| `Aggregator.MentionsCarryAllSkillIds` | analyze.js:345-352 | postings that do not mention a cluster contribute no skill ids to it, so tallying only the mentions loses nothing |
| `Aggregator.AiDeepDiveAgrees` | analyze.js:333-352 | see the list under this table |
| `Aggregator.AnalyzePostings` | analyze.js:238-368 | fails exactly when there are postings and the taxonomy has no `ai_skills` cluster; otherwise returns the document of per-posting results, cluster frequencies, slices, deep dive and metadata |
| `Aggregator.MetadataSpec` | analyze.js:354-361 | `total_postings` is the number of postings and of results; regions, seniority levels and companies are distinct, exactly the values seen, and each list is in first-seen order |
| `Aggregator.ClusterFrequenciesBounded` | analyze.js:282-285 | every cluster's posting count is at most the total; for a non-empty batch its percentage is a whole number in [0, 100] |
| `Aggregator.SlicesPartition` | analyze.js:293-331 | with unique ids, the group counts of `by_region` and of `by_seniority` each add up to the number of postings |
| `Aggregator.PostingInOneGroup` | analyze.js:293-299 | with unique ids, each result is a member of exactly one group of a slice, the one keyed by its own posting's field, and that key is among the slice's keys |
| `Aggregator.DocumentAiAgrees` | analyze.js:333-352 | in the document, `total_with_ai` and its percentage equal the AI cluster's `posting_count` and percentage, and the AI cluster's `top_skills` is `specific_skills` ranked |

`Aggregator.ClusterFrequencySpec` states that a cluster's frequency entry has these properties:

- its posting count is at most the total;
- its percentage is whole and at most 100 when there are postings;
- its skills are the tally ranked in non-increasing order of count, as a permutation;
- ties keep first-encountered order;
- no key is repeated;
- each count is the number of postings that record the skill, at most the posting count.

`Aggregator.AiDeepDiveAgrees` states:

- `total_with_ai` and the percentage equal the AI cluster's posting count and percentage;
- there is one company entry per AI posting, listing that posting's skill ids, never empty;
- `specific_skills` is the unsorted AI tally, and ranking it gives the AI cluster's `top_skills`.

## Left out

- File reading, JSON parsing and writing, and the path set-up (analyze.js:448-455) are not modelled. They are plumbing around the pipeline.
- `printReport` (analyze.js:375-441) is console formatting only.
- The date stamp (analyze.js:357) reads the clock. `AnalyzePostings` takes the date as the parameter `dateAnalyzed`.
- Stats.Percentage: computes `Math.round(count / total * 100)` over exact rationals, rounding halves up. JavaScript divides in floating point, so at exact halves it can round down: 29 / 200 * 100 is 14.499999999999998 and rounds to 14, where the model gives 15.
- Stats.Percentage: a zero divisor gives `NotFinite`, as the code does (`NaN`; there is no guard at analyze.js:285, 308, 328 and 337). Returning 0% there would differ from the code's `NaN`, so the model keeps `NotFinite`.
- Text.LowerChar: lowers ASCII capitals only, not the full Unicode mapping of `toLowerCase`.
- Skill counters are ordered lists with insertion order. JavaScript would put integer-like keys first; no skill id in the taxonomy is integer-like. A skill id naming an inherited object member such as `constructor` would pass the `!top_skills[id]` test at analyze.js:274 without being set to 0 and end as `NaN`, where `Stats.Bump` counts it normally; no skill id in the taxonomy is such a name. Integer-like cluster ids would likewise reorder `Object.entries(taxonomy)` and `Object.keys(taxonomy)` (analyze.js:215, 259); the model keeps declaration order, which is what the taxonomy's ids give.
- Aggregator.SliceBy: `by_region` and `by_seniority` (analyze.js:300, 320) are JavaScript objects keyed by input values. There, an integer-like key such as a region "2024" comes before all other keys. `Aggregator.GroupsOf` keeps every key in first-seen order, so the model does not capture that reordering. The metadata arrays `regions` and `seniority_levels` are arrays, not objects, so their first-seen order is what the code produces. A region or seniority value `__proto__` would set the object's prototype instead of adding a group, so that group would be missing from the code's output, while `Aggregator.GroupsOf` keeps it.
- Aggregator.PostingResult: `id`, `company`, `region`, `seniority` and `status` are strings. The code would also accept `undefined` for these and would use it as the group key `"undefined"`. The free-text fields are optional and handled as in the code. `posting.full_text || ""` would also replace other falsy non-string values; the model does not capture that.
- Aggregator.AnalyzePostings: requires distinct cluster ids, because the taxonomy is a JavaScript object whose keys are distinct. Cluster entries are found by position; that equals lookup by key because every `skills` object has the taxonomy's key order.
- Aggregator.SlicesPartition: the partition holds only for unique posting ids. `postings.find(op => op.id === p.id)` is modelled as written (`Aggregator.Find`). With duplicate ids, postings can be put in the wrong group, which `Aggregator.DuplicateIdsMisgroup` exhibits.
