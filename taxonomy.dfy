/** The skill taxonomy: clusters of keyword rules, each rule mapping a phrase to a skill id. */
module Taxonomy {
  import opened Wrappers

  /** A keyword rule: when `term` occurs in a posting, its skill `id` is present. */
  datatype Keyword = Keyword(term: string, id: string)

  /** A cluster of related skills, with its rules in declaration order. */
  datatype Cluster = Cluster(id: string, displayLabel: string, keywords: seq<Keyword>)

  /** A taxonomy is an object keyed by cluster id, so no id occurs twice. */
  predicate DistinctClusterIds(tax: seq<Cluster>)
  {
    forall i, j :: 0 <= i < j < |tax| ==> tax[i].id != tax[j].id
  }

  /** The cluster the AI deep dive reads, `skills.ai_skills`. */
  const AiClusterId: string := "ai_skills"

  /** The position of the cluster keyed `id`, if the taxonomy has one. */
  function ClusterIndex(tax: seq<Cluster>, id: string): (r: Option<nat>)
    ensures r.Some? ==> r.value < |tax| && tax[r.value].id == id
    ensures r.Some? ==> forall j :: 0 <= j < r.value ==> tax[j].id != id
    ensures r.None? ==> forall j :: 0 <= j < |tax| ==> tax[j].id != id
  {
    if |tax| == 0 then None
    else if tax[0].id == id then Some(0)
    else
      match ClusterIndex(tax[1..], id)
      case None => None
      case Some(k) => Some(k + 1)
  }

  /** `SKILL_TAXONOMY`, cluster by cluster and rule for rule. */
  const SkillTaxonomy: seq<Cluster> := [
    WritingCraft,
    SystemsThinking,
    Collaboration,
    ResearchData,
    AccessibilityInclusion,
    AiSkills,
    Tools
  ]

  const WritingCraft: Cluster := Cluster("writing_craft", "Writing Craft & UX Fundamentals", [
      Keyword("clear, concise", "clarity"),
      Keyword("microcopy", "microcopy"),
      Keyword("UX copy", "ux_copy"),
      Keyword("UX writing", "ux_writing"),
      Keyword("in-product language", "in_product_language"),
      Keyword("in-product copy", "in_product_copy"),
      Keyword("interface copy", "interface_copy"),
      Keyword("product flows", "product_flows"),
      Keyword("voice and tone", "voice_tone"),
      Keyword("voice & tone", "voice_tone"),
      Keyword("tone of voice", "voice_tone"),
      Keyword("brand voice", "brand_voice"),
      Keyword("product naming", "product_naming"),
      Keyword("nomenclature", "nomenclature"),
      Keyword("taxonomy", "taxonomy"),
      Keyword("editing", "editing"),
      Keyword("proofreading", "proofreading"),
      Keyword("onboarding", "onboarding_copy"),
      Keyword("error message", "error_messages"),
      Keyword("empty state", "empty_states"),
      Keyword("notification", "notifications"),
      Keyword("email", "email_copy"),
      Keyword("end-to-end", "end_to_end"),
      Keyword("user journey", "user_journey"),
      Keyword("customer journey", "user_journey"),
      Keyword("writing sample", "writing_samples"),
      Keyword("portfolio", "portfolio"),
      Keyword("storytelling", "storytelling")
    ])

  const SystemsThinking: Cluster := Cluster("systems_thinking", "Systems Thinking & Content Systems", [
      Keyword("systems thinking", "systems_thinking"),
      Keyword("thinks in systems", "systems_thinking"),
      Keyword("content system", "content_systems"),
      Keyword("content design system", "content_systems"),
      Keyword("design system", "design_systems"),
      Keyword("content framework", "content_frameworks"),
      Keyword("content pattern", "content_patterns"),
      Keyword("reusable content", "content_patterns"),
      Keyword("style guide", "style_guides"),
      Keyword("content guidelines", "content_guidelines"),
      Keyword("information architecture", "information_architecture"),
      Keyword("content model", "content_modeling"),
      Keyword("content structure", "content_structure"),
      Keyword("content governance", "content_governance"),
      Keyword("content audit", "content_audit"),
      Keyword("scalable", "scalability"),
      Keyword("at scale", "scalability"),
      Keyword("content strategy", "content_strategy"),
      Keyword("content standards", "content_standards")
    ])

  const Collaboration: Cluster := Cluster("collaboration", "Cross-Functional Collaboration & Stakeholder Influence", [
      Keyword("cross-functional", "cross_functional"),
      Keyword("product manager", "work_with_pm"),
      Keyword("product designer", "work_with_design"),
      Keyword("engineer", "work_with_engineering"),
      Keyword("researcher", "work_with_research"),
      Keyword("marketing", "work_with_marketing"),
      Keyword("stakeholder", "stakeholder_mgmt"),
      Keyword("influence", "influence"),
      Keyword("present work", "presenting"),
      Keyword("present to", "presenting"),
      Keyword("presenting", "presenting"),
      Keyword("collaborate", "collaboration"),
      Keyword("partner with", "collaboration"),
      Keyword("partner closely", "collaboration"),
      Keyword("agile", "agile"),
      Keyword("sprint", "agile")
    ])

  const ResearchData: Cluster := Cluster("research_data", "Research, Data & Measurement", [
      Keyword("A/B test", "ab_testing"),
      Keyword("experimentation", "experimentation"),
      Keyword("content experiment", "experimentation"),
      Keyword("user research", "user_research"),
      Keyword("usability", "usability_testing"),
      Keyword("data", "data_informed"),
      Keyword("KPI", "kpis"),
      Keyword("metric", "metrics"),
      Keyword("measure", "measurement"),
      Keyword("impact", "impact_oriented"),
      Keyword("quantitative", "quantitative"),
      Keyword("qualitative", "qualitative"),
      Keyword("insight", "insights"),
      Keyword("analytics", "analytics")
    ])

  const AccessibilityInclusion: Cluster := Cluster("accessibility_inclusion", "Accessibility, Inclusion & Localization", [
      Keyword("accessibility", "accessibility"),
      Keyword("accessible", "accessibility"),
      Keyword("WCAG", "wcag"),
      Keyword("Section 508", "section_508"),
      Keyword("inclusive design", "inclusive_design"),
      Keyword("inclusivity", "inclusive_design"),
      Keyword("inclusive", "inclusive_design"),
      Keyword("localization", "localization"),
      Keyword("localisation", "localization"),
      Keyword("multi-language", "multilingual"),
      Keyword("multi-market", "multi_market"),
      Keyword("global audience", "global_audience"),
      Keyword("worldwide", "global_audience"),
      Keyword("diverse user", "diverse_users")
    ])

  const AiSkills: Cluster := Cluster("ai_skills", "AI Skills & AI Product Experience", [
      Keyword("AI tool", "ai_tools"),
      Keyword("AI fluency", "ai_fluency"),
      Keyword("AI writing", "ai_writing"),
      Keyword("AI-powered", "ai_powered"),
      Keyword("AI capabilities", "ai_capabilities"),
      Keyword(" AI ", "ai_general"),
      Keyword("artificial intelligence", "ai_general"),
      Keyword("LLM", "llm"),
      Keyword("Large Language Model", "llm"),
      Keyword("generative AI", "genai"),
      Keyword("GenAI", "genai"),
      Keyword("prompt engineering", "prompt_engineering"),
      Keyword("prompt", "prompts"),
      Keyword("Claude", "claude"),
      Keyword("ChatGPT", "chatgpt"),
      Keyword("Gemini app", "gemini"),
      Keyword("machine learning", "ml"),
      Keyword("conversation design", "conversation_design"),
      Keyword("conversational UI", "conversational_ui"),
      Keyword("conversational user interface", "conversational_ui"),
      Keyword("chatbot", "chatbot"),
      Keyword("voice-driven", "voice_ui"),
      Keyword("voice assistant", "voice_ui")
    ])

  const Tools: Cluster := Cluster("tools", "Tools & Technical Skills", [
      Keyword("Figma", "figma"),
      Keyword("Sketch", "sketch"),
      Keyword("InVision", "invision"),
      Keyword("Contentful", "contentful"),
      Keyword("CMS", "cms"),
      Keyword("content management system", "cms"),
      Keyword("prototype", "prototyping"),
      Keyword("prototyping", "prototyping"),
      Keyword("code", "code_literacy"),
      Keyword("codebase", "code_literacy"),
      Keyword("GitHub", "github"),
      Keyword("Markdown", "markdown"),
      Keyword("SEO", "seo"),
      Keyword("Ditto", "ditto"),
      Keyword("Frontitude", "frontitude")
    ])

  /** The shipped taxonomy has seven clusters under distinct ids, the sixth being the AI cluster. */
  lemma SkillTaxonomyWellFormed()
    ensures |SkillTaxonomy| == 7
    ensures DistinctClusterIds(SkillTaxonomy)
    ensures ClusterIndex(SkillTaxonomy, AiClusterId) == Some(5)
  {
    var ids := ["writing_craft", "systems_thinking", "collaboration", "research_data", "accessibility_inclusion", "ai_skills", "tools"];
    assert forall i :: 0 <= i < 7 ==> SkillTaxonomy[i].id == ids[i];
    forall i, j | 0 <= i < j < 7
      ensures SkillTaxonomy[i].id != SkillTaxonomy[j].id
    {
      if i == 4 && j == 5 {
        assert ids[i][1] != ids[j][1];
      } else {
        assert ids[i][0] != ids[j][0];
      }
    }
    assert SkillTaxonomy[5].id == AiClusterId;
    var r := ClusterIndex(SkillTaxonomy, AiClusterId);
    assert r.Some? && r.value <= 5;
  }
}
