/** `getCombinedText`: one searchable string per posting. */
module Normalizer {
  import opened Wrappers
  import opened Text

  /** A job posting as the input document holds it; the free-text fields may be absent. */
  datatype Posting = Posting(
    id: string,
    company: string,
    title: Option<string>,
    region: string,
    seniority: string,
    status: string,
    fullText: Option<string>,
    responsibilities: Option<seq<string>>,
    requirements: Option<seq<string>>,
    niceToHave: Option<seq<string>>)

  /**
   * The array `getCombinedText` builds: the full text and the title (an absent
   * one read as `""`), then every responsibility, requirement and nice-to-have
   * (an absent list contributing nothing).
   */
  function TextParts(p: Posting): (parts: seq<string>)
    ensures |parts| == 2 + |p.responsibilities.GetOr([])| + |p.requirements.GetOr([])| + |p.niceToHave.GetOr([])|
  {
    [p.fullText.GetOr(""), p.title.GetOr("")]
      + p.responsibilities.GetOr([]) + p.requirements.GetOr([]) + p.niceToHave.GetOr([])
  }

  /** The parts joined by single spaces. */
  function CombinedText(p: Posting): string
  {
    Join(" ", TextParts(p))
  }

  /** Every part stands in the combined text at its offset, followed by a space unless it is the last. */
  lemma CombinedTextLayout(p: Posting, k: nat)
    requires k < |TextParts(p)|
    ensures var parts, o := TextParts(p), Offset(" ", TextParts(p), k);
      o + |parts[k]| <= |CombinedText(p)| &&
      CombinedText(p)[o..o + |parts[k]|] == parts[k] &&
      (k + 1 < |parts| ==> o + |parts[k]| < |CombinedText(p)| && CombinedText(p)[o + |parts[k]|] == ' ')
  {
    var parts, o := TextParts(p), Offset(" ", TextParts(p), k);
    JoinPartAt(" ", parts, k);
    assert OccursAt(CombinedText(p), parts[k], o);
    if k + 1 < |parts| {
      assert OccursAt(CombinedText(p), " ", o + |parts[k]|);
      assert CombinedText(p)[o + |parts[k]|..o + |parts[k]| + 1][0] == ' ';
    }
  }

  /** A phrase found, case-insensitively, in any one field is found in the combined text. */
  lemma FieldPhraseFound(p: Posting, k: nat, phrase: string)
    requires k < |TextParts(p)|
    requires Contains(Lower(TextParts(p)[k]), Lower(phrase))
    ensures Contains(Lower(CombinedText(p)), Lower(phrase))
  {
    var parts, o := TextParts(p), Offset(" ", TextParts(p), k);
    JoinPartAt(" ", parts, k);
    assert OccursAt(CombinedText(p), parts[k], o);
    LowerSlice(CombinedText(p), o, o + |parts[k]|);
    ContainsWithin(Lower(CombinedText(p)), o, Lower(parts[k]), Lower(phrase));
  }
}
