/**
 * The portfolio chat assistant: the system prompt assembled from the
 * database, and the post-processing of the language model's reply (strip,
 * related-link choice, fallback on any failure). The model call itself is
 * an input: `Completion` is what it produced.
 */
module AiChat {
  import opened Wrappers
  import opened Text
  import opened CoreModels

  /** Only the first this many skills are named in the prompt. */
  const SkillLimit: nat := 10

  const PromptHead: string :=
    "\n    You are Govardhan's Portfolio Assistant.\n    and tell HI to user\n    \n    [DATA]\n    Projects: "
  const SkillsLabel: string := "\n    Skills: "
  const FeaturesLabel: string := "\n    Features: "
  const SiteFeatures: string :=
    "\n    - Spy Mode (Analytics)\n    - Secure Vault (Files)\n    - Real-time Dashboard\n    - 3D Visuals\n    "
  const PromptRules: string :=
    "\n\n    [STRICT RULES]\n    1. KEEP IT SHORT. Maximum 2-3 sentences.\n"
    + "    2. NO FLUFF. Do not say \"I'm thrilled\", \"Welcome\", or \"Great question\".\n"
    + "    3. NO ROBOTIC INTROS. Just answer the question directly.\n"
    + "    4. If asked about Govardhan, use the data above.\n"
    + "    5. If asked \"Hi\" or \"Hello\", just say \"Hi! Ask me about Govardhan's projects or skills.\"\n    "

  /** One prompt line per featured project. */
  function ProjectLine(p: Project): string {
    "- " + p.title + ": " + p.tagline
  }

  function ProjectLines(ps: seq<Project>): (r: seq<string>)
    ensures |r| == |ps|
    ensures forall i | 0 <= i < |ps| :: r[i] == ProjectLine(ps[i])
  {
    seq(|ps|, i requires 0 <= i < |ps| => ProjectLine(ps[i]))
  }

  function ProjectText(ps: seq<Project>): string {
    Join("\n", ProjectLines(FeaturedProjects(ps)))
  }

  function Min(a: int, b: int): int {
    if a <= b then a else b
  }

  /** The names of the first ten skills, in table order. */
  function SkillNames(skills: seq<Skill>): (r: seq<string>)
    ensures |r| <= SkillLimit && |r| <= |skills|
    ensures |r| == SkillLimit || |r| == |skills|
    ensures forall i | 0 <= i < |r| :: r[i] == skills[i].name
  {
    seq(Min(|skills|, SkillLimit), i requires 0 <= i < Min(|skills|, SkillLimit) => skills[i].name)
  }

  function SkillText(skills: seq<Skill>): string {
    Join(", ", SkillNames(skills))
  }

  /** `get_website_context`: the system prompt. */
  function WebsiteContext(projects: seq<Project>, skills: seq<Skill>): string {
    PromptHead + ProjectText(projects) + SkillsLabel + SkillText(skills)
    + FeaturesLabel + SiteFeatures + PromptRules
  }

  /** Every element of a joined list occurs in the joined string. */
  lemma {:induction false} JoinContains(sep: string, xs: seq<string>, i: nat)
    requires i < |xs|
    ensures Contains(Join(sep, xs), xs[i])
  {
    if |xs| == 1 {
      assert OccursAt(xs[0], xs[0], 0);
    } else if i == 0 {
      assert OccursAt(xs[0], xs[0], 0);
      ContainsInLeft(xs[0], sep + Join(sep, xs[1..]), xs[0]);
      assert xs[0] + (sep + Join(sep, xs[1..])) == Join(sep, xs);
    } else {
      JoinContains(sep, xs[1..], i - 1);
      ContainsInRight(xs[0] + sep, Join(sep, xs[1..]), xs[i]);
    }
  }

  /** Whatever occurs in the project list or the skill list occurs in the prompt. */
  lemma PromptContainsParts(projects: seq<Project>, skills: seq<Skill>, w: string)
    requires Contains(ProjectText(projects), w) || Contains(SkillText(skills), w)
    ensures Contains(WebsiteContext(projects, skills), w)
  {
    var pt := ProjectText(projects);
    var st := SkillText(skills);
    if Contains(pt, w) {
      ContainsInRight(PromptHead, pt, w);
      ContainsInLeft(PromptHead + pt, SkillsLabel, w);
      ContainsInLeft(PromptHead + pt + SkillsLabel, st, w);
    } else {
      ContainsInRight(PromptHead + pt + SkillsLabel, st, w);
    }
    ContainsInLeft(PromptHead + pt + SkillsLabel + st, FeaturesLabel, w);
    ContainsInLeft(PromptHead + pt + SkillsLabel + st + FeaturesLabel, SiteFeatures, w);
    ContainsInLeft(PromptHead + pt + SkillsLabel + st + FeaturesLabel + SiteFeatures, PromptRules, w);
  }

  /** Every featured project appears in the prompt as "- title: tagline". */
  lemma PromptListsFeaturedProjects(projects: seq<Project>, skills: seq<Skill>, p: Project)
    requires p in projects && p.featured
    ensures Contains(WebsiteContext(projects, skills), ProjectLine(p))
  {
    var fs := FeaturedProjects(projects);
    var i :| 0 <= i < |fs| && fs[i] == p;
    JoinContains("\n", ProjectLines(fs), i);
    PromptContainsParts(projects, skills, ProjectLine(p));
  }

  /** Each of the first ten skills is named in the prompt. */
  lemma PromptListsFirstSkills(projects: seq<Project>, skills: seq<Skill>, i: nat)
    requires i < |skills| && i < SkillLimit
    ensures Contains(WebsiteContext(projects, skills), skills[i].name)
  {
    JoinContains(", ", SkillNames(skills), i);
    PromptContainsParts(projects, skills, skills[i].name);
  }

  /**
   * The page the reply links to: "/projects" as soon as "project" occurs,
   * then "/contact" for "contact" or "email", then "/blog", else none.
   */
  function RelatedLink(reply: string): (r: Option<string>)
    ensures Contains(Lower(reply), "project") ==> r == Some("/projects")
    ensures !Contains(Lower(reply), "project")
            && (Contains(Lower(reply), "contact") || Contains(Lower(reply), "email"))
            ==> r == Some("/contact")
    ensures r == Some("/blog") <==>
              !Contains(Lower(reply), "project") && !Contains(Lower(reply), "contact")
              && !Contains(Lower(reply), "email") && Contains(Lower(reply), "blog")
    ensures r == None <==>
              !Contains(Lower(reply), "project") && !Contains(Lower(reply), "contact")
              && !Contains(Lower(reply), "email") && !Contains(Lower(reply), "blog")
  {
    var t := Lower(reply);
    if Contains(t, "project") then Some("/projects")
    else if Contains(t, "contact") || Contains(t, "email") then Some("/contact")
    else if Contains(t, "blog") then Some("/blog")
    else None
  }

  /** The keyword match ignores case: upper- or lower-casing the reply picks the same link. */
  lemma RelatedLinkIgnoresCase(reply: string)
    ensures RelatedLink(Upper(reply)) == RelatedLink(reply)
    ensures RelatedLink(Lower(reply)) == RelatedLink(reply)
  {
    LowerOfUpper(reply);
    LowerIdempotent(reply);
  }

  /** What the chat-completion call produced: an exception, or a message whose content may be null. */
  datatype Completion = Raised | Answered(content: Option<string>)

  datatype ChatReply = ChatReply(text: string, relatedLink: Option<string>)

  const Fallback: ChatReply := ChatReply("System Rebooting. Check back soon.", Some("/contact"))

  /**
   * `get_smart_response`. A null content fails in `.strip()` and so takes the
   * fallback like any other exception.
   */
  function SmartResponse(answer: Completion): (r: ChatReply)
    ensures answer.Raised? || answer.content.None? ==> r == Fallback
    ensures answer.Answered? && answer.content.Some? ==>
              r.text == Strip(answer.content.value) && r.relatedLink == RelatedLink(r.text)
    ensures r.text == [] || (!IsPySpace(r.text[0]) && !IsPySpace(r.text[|r.text| - 1]))
  {
    match answer
    case Raised => Fallback
    case Answered(content) =>
      if content.None? then Fallback
      else
        var text := Strip(content.value);
        ChatReply(text, RelatedLink(text))
  }

  /** Feeding a reply's own text back through the post-processing gives the same reply. */
  lemma ReplyIsStable(content: string)
    ensures var r := SmartResponse(Answered(Some(content)));
            SmartResponse(Answered(Some(r.text))) == r
  {
    StripIdempotent(content);
  }
}
