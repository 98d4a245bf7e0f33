/**
 * The prompt templates: the table of canned test prompts per use case with its fallback,
 * the app's tab table that looks prompts up by use case, and the interpolated custom
 * system prompt. The templates object holds no state, so every operation is a function of
 * its arguments. The wording of the canned prompts is not held: a canned prompt is named by
 * its use case and its position.
 */
module PromptTemplates {
  import opened Common

  /** A test prompt: the `index`-th canned prompt of a use case, or a literal text. */
  datatype PromptText = Canned(useCase: string, index: nat) | Literal(text: string)

  /** The use cases that have canned test prompts, in the order the table lists them. */
  const UseCases: seq<string> := [
    "alert_prioritization", "yara_patterns", "osint_reporting", "incident_summarization",
    "redteam_planning", "exploit_generation", "threat_intelligence", "vulnerability_assessment",
    "security_policy", "crem_discover", "crem_predict", "crem_prioritize", "crem_comply",
    "crem_quantify", "crem_mitigate"]

  const NoTestPrompt: string := "Test prompt not available for this use case."

  /** The three canned prompts of one use case. */
  function ThreePrompts(useCase: string): seq<PromptText>
  {
    [Canned(useCase, 0), Canned(useCase, 1), Canned(useCase, 2)]
  }

  /** The `test_prompts` dict of `get_test_prompts`: each use case with its three canned prompts. */
  const TestPromptTable: map<string, seq<PromptText>> := map u | u in UseCases :: ThreePrompts(u)

  /**
   * `get_test_prompts`: a known use case gets its own three prompts, in order; anything else
   * gets the one-element fallback list.
   */
  function TestPrompts(useCase: string): (prompts: seq<PromptText>)
    ensures useCase in UseCases ==> prompts == [Canned(useCase, 0), Canned(useCase, 1), Canned(useCase, 2)]
    ensures useCase !in UseCases ==> prompts == [Literal(NoTestPrompt)]
  {
    TableLookup(useCase);
    if useCase in TestPromptTable then TestPromptTable[useCase] else [Literal(NoTestPrompt)]
  }

  /** A use case is a key of the table exactly when it is listed, and its entry is its own three prompts. */
  lemma TableLookup(useCase: string)
    ensures useCase in TestPromptTable <==> useCase in UseCases
    ensures useCase in TestPromptTable ==> TestPromptTable[useCase] == ThreePrompts(useCase)
  {
  }

  /** The table has fifteen distinct use cases, and a lookup gets three prompts exactly when the use case is one of them. */
  lemma UseCasesDistinct(useCase: string)
    ensures |UseCases| == 15
    ensures forall i, j :: 0 <= i < j < |UseCases| ==> UseCases[i] != UseCases[j]
    ensures |TestPrompts(useCase)| == 3 <==> useCase in UseCases
  {
  }

  /**
   * Prompts of different use cases never coincide as entries of the table: each entry is
   * named by its own use case. Whether the prompt wording of two use cases differs is not
   * held by the model.
   */
  lemma PromptsBelongToTheirUseCase(u1: string, u2: string)
    requires u1 in UseCases && u2 in UseCases && u1 != u2
    ensures forall p :: p in TestPrompts(u1) ==> p !in TestPrompts(u2)
  {
    OwnPrompts(u1);
    OwnPrompts(u2);
  }

  lemma OwnPrompts(useCase: string)
    ensures forall p :: p in ThreePrompts(useCase) ==> p.useCase == useCase
  {
  }

  /* ---------------------------------------------------------------- the app's tabs */

  /** The chat tabs of the app: each tab's label and the use case whose test prompts it shows. */
  const AppTabs: seq<(string, string)> := [
    ("Alert Prioritization", "alert_prioritization"),
    ("YARA Patterns", "yara_patterns"),
    ("OSINT Reporting", "osint_reporting"),
    ("Incident Summarization", "incident_summarization"),
    ("Red Team Planning", "redteam_planning"),
    ("Exploit Generation", "exploit_generation"),
    ("Threat Intelligence", "threat_intelligence"),
    ("Vulnerability Assessment", "vulnerability_assessment"),
    ("Security Policy", "security_policy"),
    ("CREM Discover", "crem_discover"),
    ("CREM Predict", "crem_predict"),
    ("CREM Prioritize", "crem_prioritize"),
    ("CREM Comply", "crem_comply"),
    ("CREM Quantify", "crem_quantify"),
    ("CREM Mitigate", "crem_mitigate")]

  /** No tab falls back: every tab's use case has its three canned prompts, and every use case has a tab. */
  lemma EveryTabHasPrompts()
    ensures forall i :: 0 <= i < |AppTabs| ==>
      AppTabs[i].1 in UseCases && TestPrompts(AppTabs[i].1) != [Literal(NoTestPrompt)]
    ensures forall u :: u in UseCases ==> exists i :: 0 <= i < |AppTabs| && AppTabs[i].1 == u
  {
    forall i | 0 <= i < |AppTabs|
      ensures AppTabs[i].1 in UseCases
    {
      assert AppTabs[i].1 == UseCases[i];
    }
    forall u | u in UseCases
      ensures exists i :: 0 <= i < |AppTabs| && AppTabs[i].1 == u
    {
      var i :| 0 <= i < |UseCases| && UseCases[i] == u;
      assert AppTabs[i].1 == u;
    }
  }

  /* ---------------------------------------------------------------- the custom prompt */

  /** The first sentence of the custom prompt. */
  function Opening(domain: string, expertise: string, task: string): string
  {
    "You are a cybersecurity expert specializing in " + domain + " with deep expertise in "
    + expertise + ". Your task is to " + task + "."
  }

  function KnowledgeLine(domain: string): string
  {
    "- Advanced knowledge in " + domain + "\n"
  }

  function SkillsLine(expertise: string): string
  {
    "- Specialized skills in " + expertise + "\n"
  }

  const ExpertiseHeader: string := "\n\nYour expertise includes:\n"

  const ClosingText: string :=
    "- Industry best practices and standards\n"
    + "- Practical implementation experience\n"
    + "- Risk assessment and mitigation\n"
    + "\n"
    + "Always provide:\n"
    + "- Expert analysis and recommendations\n"
    + "- Practical implementation guidance\n"
    + "- Risk assessments and considerations\n"
    + "- Best practices and industry standards\n"
    + "- Actionable next steps and priorities\n"
    + "\n"
    + "Focus on delivering high-quality cybersecurity expertise that addresses the specific "
    + "requirements and enhances security posture."

  /** `get_custom_prompt`: the custom system prompt built from its three arguments. */
  function CustomPrompt(domain: string, expertise: string, task: string): (p: string)
    ensures StartsWith(p, Opening(domain, expertise, task))
  {
    var opening, knowledge, skills := Opening(domain, expertise, task), KnowledgeLine(domain), SkillsLine(expertise);
    FiveParts(opening, ExpertiseHeader, knowledge, skills, ClosingText);
    opening + ExpertiseHeader + knowledge + skills + ClosingText
  }

  /** A text of five parts starts with the first and contains the third and the fourth. */
  lemma FiveParts(a: string, b: string, c: string, d: string, e: string)
    ensures StartsWith(a + b + c + d + e, a)
    ensures Contains(a + b + c + d + e, c) && Contains(a + b + c + d + e, d)
  {
    Regroup(a, b, c, d, e);
    assert (a + (b + c + d + e))[..|a|] == a;
    OccursInMiddle(a + b, c, d + e);
    OccursInMiddle(a + b + c, d, e);
  }

  /** The custom prompt repeats the domain and the expertise in the first two bullet lines. */
  lemma CustomPromptBullets(domain: string, expertise: string, task: string)
    ensures Contains(CustomPrompt(domain, expertise, task), KnowledgeLine(domain))
    ensures Contains(CustomPrompt(domain, expertise, task), SkillsLine(expertise))
  {
    FiveParts(Opening(domain, expertise, task), ExpertiseHeader, KnowledgeLine(domain), SkillsLine(expertise),
              ClosingText);
  }

  /**
   * Everything but the arguments is fixed text: the domain and the expertise are each
   * inserted twice and the task once.
   */
  lemma CustomPromptLength(domain: string, expertise: string, task: string)
    ensures |CustomPrompt(domain, expertise, task)|
         == |CustomPrompt("", "", "")| + 2 * |domain| + 2 * |expertise| + |task|
  {
  }
}
