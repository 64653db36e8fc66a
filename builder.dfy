/**
 * The rules of the resume builder page (frontend/app/builder/page.tsx) that are not rendering:
 * the form's own skills normaliser and the merge of a stored document over the blank one,
 * which tabs count as complete, the auto-advance to the next incomplete tab, the draft title,
 * and the transforms that turn a comma- or line-separated text area into a list.
 */
module Builder {
  import opened Wrappers
  import opened Strings
  import opened Seqs
  import opened JsonValue
  import opened CvTypes
  import opened Validators
  import opened CvDefaults
  import opened ChatNormalize
  import opened DraftsStorage

  // ---------------------------------------------------------------------------------------
  // normalizeTechnicalSkills, the form's variant
  // ---------------------------------------------------------------------------------------

  /** `String(x).trim()`: unlike the route, every element is rendered, so null becomes "null". */
  function SkillText(v: Json): string {
    Trim(ToJsString(v))
  }

  /** `Array.isArray(xs) ? xs.map((x) => String(x).trim()).filter(Boolean) : []`. */
  function FormSkills(v: Json): (r: seq<string>)
    ensures NormalStrings(r)
    ensures v.JArr? ==> |r| <= |v.items| && Subseq(r, Map(v.items, SkillText))
    ensures !v.JArr? ==> r == []
  {
    if v.JArr? then
      var texts := Map(v.items, SkillText);
      var kept := Filter(texts, NonEmpty);
      FilterIsSubseq(texts, NonEmpty);
      assert forall k :: 0 <= k < |kept| ==> kept[k] != "" && kept[k] in texts;
      kept
    else []
  }

  /** A category of the array form: the title only when it is a string, kept as it is (not trimmed). */
  function FormCategory(v: Json): SkillCategory {
    var title := Get(v, "title");
    SkillCategory(if title.JStr? then title.s else "", FormSkills(Get(v, "skills")))
  }

  /** `category.title.trim() || category.skills.length > 0`. */
  predicate FormKeep(c: SkillCategory) {
    Trim(c.title) != "" || |c.skills| > 0
  }

  /** What every category the form normaliser returns looks like. */
  predicate FormCategoryOk(c: SkillCategory) {
    NormalStrings(c.skills) && FormKeep(c)
  }

  function FormLegacyCategory(v: Json, b: LegacyBucket): SkillCategory {
    SkillCategory(b.title, FormSkills(Get(v, b.key)))
  }

  /** The array branch: each element coerced, and dropped when it has neither a title nor a skill. */
  function FormArrayCategories(items: seq<Json>): (r: seq<SkillCategory>)
    ensures forall k :: 0 <= k < |r| ==> FormCategoryOk(r[k])
    ensures |r| <= |items| && Subseq(r, Map(items, FormCategory))
  {
    var cs := Map(items, FormCategory);
    FilterIsSubseq(cs, FormKeep);
    FilterPreserves(cs, FormKeep, (c: SkillCategory) => NormalStrings(c.skills));
    Filter(cs, FormKeep)
  }

  /** The legacy-object branch: the four buckets in their fixed order, those without a skill dropped. */
  function FormLegacyCategories(v: Json): (r: seq<SkillCategory>)
    ensures forall k :: 0 <= k < |r| ==> FormCategoryOk(r[k]) && r[k].skills != []
    ensures |r| <= |LegacyBuckets| && Subseq(r, Map(LegacyBuckets, b => FormLegacyCategory(v, b)))
  {
    var cs := Map(LegacyBuckets, b => FormLegacyCategory(v, b));
    FilterIsSubseq(cs, HasSkills);
    FilterPreserves(cs, HasSkills, (c: SkillCategory) => NormalStrings(c.skills));
    Filter(cs, HasSkills)
  }

  /** `normalizeTechnicalSkills` of the builder page. */
  function FormNormalizeTechnicalSkills(v: Json): (r: seq<SkillCategory>)
    ensures forall k :: 0 <= k < |r| ==> FormCategoryOk(r[k])
    ensures v.JArr? ==> |r| <= |v.items| && Subseq(r, Map(v.items, FormCategory))
    ensures v.JObj? ==> |r| <= |LegacyBuckets| && Subseq(r, Map(LegacyBuckets, b => FormLegacyCategory(v, b)))
    ensures v.JObj? ==> forall k :: 0 <= k < |r| ==> r[k].skills != []
    ensures !v.JArr? && !v.JObj? ==> r == []
  {
    match v
    case JArr(items) => FormArrayCategories(items)
    case JObj(_) => FormLegacyCategories(v)
    case _ => []
  }

  /** Every element whose rendered, trimmed text is not empty is kept. */
  lemma FormSkillsKeeps(items: seq<Json>)
    ensures forall k :: 0 <= k < |items| && SkillText(items[k]) != "" ==> SkillText(items[k]) in FormSkills(JArr(items))
    ensures |FormSkills(JArr(items))| == CountTrue(Map(Map(items, SkillText), NonEmpty))
  {
    var texts := Map(items, SkillText);
    FilterCount(texts, NonEmpty);
    forall k | 0 <= k < |items| && SkillText(items[k]) != "" ensures SkillText(items[k]) in FormSkills(JArr(items)) {
      assert texts[k] in texts && NonEmpty(texts[k]);
    }
  }

  /** An array item becomes a category exactly when its title has text or it has a skill. */
  lemma FormArrayCategoryKept(items: seq<Json>, k: nat)
    requires k < |items|
    ensures var c := FormCategory(items[k]);
      c in FormNormalizeTechnicalSkills(JArr(items)) <==> Trim(c.title) != "" || c.skills != []
  {
    var cs := Map(items, FormCategory);
    assert cs[k] == FormCategory(items[k]) && cs[k] in cs;
  }

  /** Both branches keep exactly as many categories as pass their test: none is merged with another. */
  lemma FormCategoryCount(v: Json)
    ensures v.JArr? ==> |FormNormalizeTechnicalSkills(v)| == CountTrue(Map(Map(v.items, FormCategory), FormKeep))
    ensures v.JObj? ==> |FormNormalizeTechnicalSkills(v)| == CountTrue(Map(Map(LegacyBuckets, b => FormLegacyCategory(v, b)), HasSkills))
  {
    match v
    case JArr(items) =>
      var cs := Map(items, FormCategory);
      assert FormNormalizeTechnicalSkills(v) == FormArrayCategories(items) == Filter(cs, FormKeep);
      FilterCount(cs, FormKeep);
    case JObj(_) =>
      var cs := Map(LegacyBuckets, b => FormLegacyCategory(v, b));
      assert FormNormalizeTechnicalSkills(v) == FormLegacyCategories(v) == Filter(cs, HasSkills);
      FilterCount(cs, HasSkills);
    case _ =>
  }

  /** A legacy bucket becomes a category exactly when it holds at least one skill with text. */
  lemma FormLegacyBucketKept(v: Json, k: nat)
    requires v.JObj? && k < |LegacyBuckets|
    ensures var c := FormLegacyCategory(v, LegacyBuckets[k]);
      c in FormNormalizeTechnicalSkills(v) <==> FormSkills(Get(v, LegacyBuckets[k].key)) != []
  {
    var cs := Map(LegacyBuckets, b => FormLegacyCategory(v, b));
    assert cs[k] == FormLegacyCategory(v, LegacyBuckets[k]) && cs[k] in cs;
  }

  /** A trimmed non-empty string survives `String(x).trim()` and the empty-string filter. */
  lemma FormSkillsEncode(xs: seq<string>)
    requires NormalStrings(xs)
    ensures FormSkills(EncodeStrings(xs)) == xs
  {
    var texts := Map(Map(xs, Str), SkillText);
    forall k | 0 <= k < |xs| ensures texts[k] == xs[k] {
      TrimTrimmed(xs[k]);
    }
    assert texts == xs;
    FilterKeepsAll(xs, NonEmpty);
  }

  /** A list the form normaliser would produce comes back unchanged from it. */
  lemma FormSkillsFixed(cs: seq<SkillCategory>)
    requires forall k :: 0 <= k < |cs| ==> FormCategoryOk(cs[k])
    ensures FormNormalizeTechnicalSkills(EncodeSkills(cs)) == cs
  {
    var back := Map(Map(cs, EncodeSkill), FormCategory);
    forall k | 0 <= k < |cs| ensures back[k] == cs[k] {
      SkillFields(cs[k]);
      FormSkillsEncode(cs[k].skills);
    }
    assert back == cs;
    FilterKeepsAll(cs, FormKeep);
  }

  /** Normalising on the form is idempotent. */
  lemma FormNormalizeIdempotent(v: Json)
    ensures FormNormalizeTechnicalSkills(EncodeSkills(FormNormalizeTechnicalSkills(v))) == FormNormalizeTechnicalSkills(v)
  {
    FormSkillsFixed(FormNormalizeTechnicalSkills(v));
  }

  /** The route's categories are kept as they are by the form, so an AI reply loads into the form unchanged. */
  lemma RouteSkillsFormFixed(cs: seq<SkillCategory>)
    requires forall k :: 0 <= k < |cs| ==> NormalCategory(cs[k])
    ensures forall k :: 0 <= k < |cs| ==> FormCategoryOk(cs[k])
    ensures FormNormalizeTechnicalSkills(EncodeSkills(cs)) == cs
  {
    forall k | 0 <= k < |cs| ensures FormCategoryOk(cs[k]) {
      if cs[k].title != "" {
        TrimTrimmed(cs[k].title);
      }
    }
    FormSkillsFixed(cs);
  }

  /** A one-element list keeps its element's text exactly when that text is not empty. */
  lemma FormSkillsSingle(x: Json)
    ensures FormSkills(JArr([x])) == if SkillText(x) != "" then [SkillText(x)] else []
  {
    assert Map([x], SkillText) == [SkillText(x)];
    FilterSingleton(SkillText(x), NonEmpty);
  }

  lemma RouteSkillsSingle(x: Json)
    ensures AsStringArray(JArr([x])) == if AsText(x) != "" then [AsText(x)] else []
  {
    assert Map([x], AsText) == [AsText(x)];
    FilterSingleton(AsText(x), NonEmpty);
  }

  /** Where the two variants differ: the route drops a null skill, the form keeps it as the text "null". */
  lemma NullSkillDiffers()
    ensures FormSkills(JArr([JNull])) == ["null"]
    ensures AsStringArray(JArr([JNull])) == []
  {
    FormSkillsSingle(JNull);
    assert SkillText(JNull) == "null" by {
      TrimTrimmed("null");
    }
    RouteSkillsSingle(JNull);
  }

  // ---------------------------------------------------------------------------------------
  // normalizeCvDataForForm
  // ---------------------------------------------------------------------------------------

  /** Different indices have different property names. */
  lemma IndexKeysDistinct()
    ensures forall m: nat, n: nat :: NatToString(m) == NatToString(n) ==> m == n
  {
    forall m: nat, n: nat | NatToString(m) == NatToString(n) ensures m == n {
      NatToStringInjective(m, n);
    }
  }

  /**
   * The own enumerable properties `...data` copies: an object's fields, a string's characters
   * and an array's elements under their indices, and nothing for null, numbers and booleans.
   */
  function Spread(data: Json): (m: map<string, Json>)
    ensures data.JObj? ==> m == data.fields
    ensures data.JStr? ==> forall i :: 0 <= i < |data.s| ==> NatToString(i) in m && m[NatToString(i)] == JStr([data.s[i]])
    ensures data.JArr? ==> forall i :: 0 <= i < |data.items| ==> NatToString(i) in m && m[NatToString(i)] == data.items[i]
    ensures data.JNull? || data.JBool? || data.JNum? ==> m == map[]
  {
    IndexKeysDistinct();
    match data
    case JObj(fields) => fields
    case JStr(s) => map i | 0 <= i < |s| :: NatToString(i) := JStr([s[i]])
    case JArr(items) => map i | 0 <= i < |items| :: NatToString(i) := items[i]
    case _ => map[]
  }

  /**
   * `{...createEmptyCV(), ...data, technical_skills: normalizeTechnicalSkills(data?.technical_skills)}`:
   * every key of the blank document is present, a key `data` has wins over the blank value,
   * and `technical_skills` is always the normalised list.
   */
  function NormalizeCvDataForForm(data: Json): (r: map<string, Json>)
    ensures r.Keys == EmptyCVObject().Keys + Spread(data).Keys + {"technical_skills"}
    ensures forall k :: k in Spread(data) && k != "technical_skills" ==> r[k] == Spread(data)[k]
    ensures forall k :: k in EmptyCVObject() && k !in Spread(data) && k != "technical_skills" ==> r[k] == EmptyCVObject()[k]
    ensures r["technical_skills"] == EncodeSkills(FormNormalizeTechnicalSkills(Get(data, "technical_skills")))
  {
    (EmptyCVObject() + Spread(data))["technical_skills" := EncodeSkills(FormNormalizeTechnicalSkills(Get(data, "technical_skills")))]
  }

  /** Spreading an object that already has every blank key over the blank document gives that object back. */
  lemma MergeOverBlank(m: map<string, Json>)
    requires EmptyCVObject().Keys <= m.Keys
    ensures EmptyCVObject() + m == m
  {
  }

  /** An object with every blank key and an already normalised skills list is loaded as it is. */
  lemma CompleteObjectLoadsUnchanged(m: map<string, Json>)
    requires EmptyCVObject().Keys <= m.Keys && "technical_skills" in m
    requires EncodeSkills(FormNormalizeTechnicalSkills(m["technical_skills"])) == m["technical_skills"]
    ensures NormalizeCvDataForForm(JObj(m)) == m
  {
    MergeOverBlank(m);
    assert m["technical_skills" := m["technical_skills"]] == m;
  }

  /** Loading the form's own output into the form again changes nothing. */
  lemma NormalizeForFormIdempotent(data: Json)
    ensures NormalizeCvDataForForm(JObj(NormalizeCvDataForForm(data))) == NormalizeCvDataForForm(data)
  {
    FormNormalizeIdempotent(Get(data, "technical_skills"));
    CompleteObjectLoadsUnchanged(NormalizeCvDataForForm(data));
  }

  /** The twelve keys of an encoded document whose three links are present. */
  lemma EncodedKeys(cv: CVData)
    requires cv.portfolioUrl.Some? && cv.linkedinUrl.Some? && cv.githubUrl.Some?
    ensures Encode(cv).fields.Keys == EmptyCVObject().Keys
  {
    assert EmptyCV().portfolioUrl.Some? && EmptyCV().linkedinUrl.Some? && EmptyCV().githubUrl.Some?;
  }

  /** A document with its three links present and form-shaped categories loads into the form unchanged. */
  lemma EncodedLoadsUnchanged(cv: CVData)
    requires cv.portfolioUrl.Some? && cv.linkedinUrl.Some? && cv.githubUrl.Some?
    requires FormNormalizeTechnicalSkills(EncodeSkills(cv.technicalSkills)) == cv.technicalSkills
    ensures NormalizeCvDataForForm(Encode(cv)) == Encode(cv).fields
  {
    EncodeListFields(cv);
    EncodedKeys(cv);
    CompleteObjectLoadsUnchanged(Encode(cv).fields);
  }

  /** A document the chat route returns loads into the form exactly as it was returned. */
  lemma RouteReplyLoadsUnchanged(cv: CVData)
    requires NormalCV(cv)
    ensures NormalizeCvDataForForm(Encode(cv)) == Encode(cv).fields
  {
    RouteSkillsFormFixed(cv.technicalSkills);
    EncodedLoadsUnchanged(cv);
  }

  // ---------------------------------------------------------------------------------------
  // Completion of the five tabs
  // ---------------------------------------------------------------------------------------

  /** `hasText(value)`: the trimmed text is non-empty, that is, some character is not white space. */
  predicate HasText(s: string)
    ensures HasText(s) <==> !IsBlank(s)
  {
    TrimEmptyIffBlank(s);
    Trim(s) != ""
  }

  /** `hasListValues(items)`: some entry has text. */
  predicate HasListValues(items: seq<string>) {
    exists k :: 0 <= k < |items| && HasText(items[k])
  }

  predicate SkillStarted(c: SkillCategory) {
    HasText(c.title) || HasListValues(c.skills)
  }

  predicate ProjectStarted(p: Project) {
    HasText(p.title) || HasListValues(p.techStack) || HasListValues(p.bullets)
  }

  predicate ExperienceStarted(e: WorkExperience) {
    HasText(e.role) || HasText(e.company) || HasListValues(e.bullets)
  }

  predicate EducationStarted(e: Education) {
    HasText(e.institution) || HasText(e.degree) || HasListValues(e.coursework)
  }

  datatype Tab = PersonalTab | SkillsTab | ProjectsTab | ExperienceTab | EducationTab

  /** The tab order of the page. */
  const Tabs: seq<Tab> := [PersonalTab, SkillsTab, ProjectsTab, ExperienceTab, EducationTab]

  /** `tabs.indexOf(tab)`. */
  function TabIndex(t: Tab): (i: nat)
    ensures i < |Tabs| && Tabs[i] == t
  {
    match t
    case PersonalTab => 0
    case SkillsTab => 1
    case ProjectsTab => 2
    case ExperienceTab => 3
    case EducationTab => 4
  }

  /** `Record<BuilderTab, boolean>`. */
  datatype Completion = Completion(personal: bool, skills: bool, projects: bool, experience: bool, education: bool)
  {
    function At(t: Tab): bool {
      match t
      case PersonalTab => personal
      case SkillsTab => skills
      case ProjectsTab => projects
      case ExperienceTab => experience
      case EducationTab => education
    }
  }

  /** `completionByTab`: personal needs a name and an e-mail or phone; every other tab one started entry. */
  function CompletionByTab(cv: CVData): (r: Completion)
    ensures r.personal ==> cv.fullName != "" && (cv.email != "" || cv.phone != "")
    ensures r.skills ==> cv.technicalSkills != []
    ensures r.projects ==> cv.projects != []
    ensures r.experience ==> cv.workExperience != []
    ensures r.education ==> cv.education != []
    ensures !HasText(cv.fullName) ==> !r.personal
  {
    Completion(
      HasText(cv.fullName) && (HasText(cv.email) || HasText(cv.phone)),
      exists k :: 0 <= k < |cv.technicalSkills| && SkillStarted(cv.technicalSkills[k]),
      exists k :: 0 <= k < |cv.projects| && ProjectStarted(cv.projects[k]),
      exists k :: 0 <= k < |cv.workExperience| && ExperienceStarted(cv.workExperience[k]),
      exists k :: 0 <= k < |cv.education| && EducationStarted(cv.education[k]))
  }

  /** A trimmed non-empty string has text. */
  lemma CleanHasText(s: string)
    requires IsClean(s)
    ensures HasText(s)
  {
    assert !IsSpace(s[0]);
  }

  /** Normalised categories each have a title or a skill, so the skills tab is complete iff there is one. */
  lemma SkillsCompletion(cs: seq<SkillCategory>)
    requires forall k :: 0 <= k < |cs| ==> NormalCategory(cs[k])
    ensures (exists k :: 0 <= k < |cs| && SkillStarted(cs[k])) <==> |cs| > 0
  {
    if |cs| > 0 {
      if cs[0].title == "" {
        CleanHasText(cs[0].skills[0]);
      } else {
        CleanHasText(cs[0].title);
      }
      assert SkillStarted(cs[0]);
    }
  }

  lemma ProjectsCompletion(ps: seq<Project>)
    requires forall k :: 0 <= k < |ps| ==> IsClean(ps[k].title)
    ensures (exists k :: 0 <= k < |ps| && ProjectStarted(ps[k])) <==> |ps| > 0
  {
    if |ps| > 0 {
      CleanHasText(ps[0].title);
      assert ProjectStarted(ps[0]);
    }
  }

  lemma ExperienceCompletion(es: seq<WorkExperience>)
    requires forall k :: 0 <= k < |es| ==> IsClean(es[k].role)
    ensures (exists k :: 0 <= k < |es| && ExperienceStarted(es[k])) <==> |es| > 0
  {
    if |es| > 0 {
      CleanHasText(es[0].role);
      assert ExperienceStarted(es[0]);
    }
  }

  lemma EducationCompletion(es: seq<Education>)
    requires forall k :: 0 <= k < |es| ==> IsClean(es[k].institution)
    ensures (exists k :: 0 <= k < |es| && EducationStarted(es[k])) <==> |es| > 0
  {
    if |es| > 0 {
      CleanHasText(es[0].institution);
      assert EducationStarted(es[0]);
    }
  }

  /** A document the chat route produced has the personal tab complete and every other tab complete iff its list is non-empty. */
  lemma NormalizedCompletion(cv: CVData)
    requires NormalCV(cv)
    ensures CompletionByTab(cv).personal
    ensures CompletionByTab(cv).skills <==> |cv.technicalSkills| > 0
    ensures CompletionByTab(cv).projects <==> |cv.projects| > 0
    ensures CompletionByTab(cv).experience <==> |cv.workExperience| > 0
    ensures CompletionByTab(cv).education <==> |cv.education| > 0
  {
    assert IsClean(cv.fullName) && IsClean(cv.phone);
    CleanHasText(cv.fullName);
    CleanHasText(cv.phone);
    assert forall k :: 0 <= k < |cv.technicalSkills| ==> NormalCategory(cv.technicalSkills[k]);
    SkillsCompletion(cv.technicalSkills);
    assert forall k :: 0 <= k < |cv.projects| ==> IsClean(cv.projects[k].title);
    ProjectsCompletion(cv.projects);
    assert forall k :: 0 <= k < |cv.workExperience| ==> IsClean(cv.workExperience[k].role);
    ExperienceCompletion(cv.workExperience);
    assert forall k :: 0 <= k < |cv.education| ==> IsClean(cv.education[k].institution);
    EducationCompletion(cv.education);
  }

  function Count(b: bool): nat {
    if b then 1 else 0
  }

  /** `tabs.filter((tab) => completionByTab[tab]).length`: the number of complete tabs, at most five. */
  function CompletedSections(c: Completion): (r: nat)
    ensures r == Count(c.personal) + Count(c.skills) + Count(c.projects) + Count(c.experience) + Count(c.education)
    ensures r <= |Tabs|
    ensures r == |Tabs| <==> forall t: Tab :: c.At(t)
    ensures r == 0 <==> forall t: Tab :: !c.At(t)
  {
    var p := (t: Tab) => c.At(t);
    assert Tabs[1..] == [SkillsTab, ProjectsTab, ExperienceTab, EducationTab];
    assert Tabs[2..] == [ProjectsTab, ExperienceTab, EducationTab];
    assert Tabs[3..] == [ExperienceTab, EducationTab];
    assert Tabs[4..] == [EducationTab];
    assert Tabs[5..] == [];
    |Filter(Tabs, p)|
  }

  // ---------------------------------------------------------------------------------------
  // Auto-advance to the next incomplete tab
  // ---------------------------------------------------------------------------------------

  /** The tabs after position `start - 1`, each at its own index shifted by `start`. */
  lemma LaterTabs(start: nat)
    requires start <= |Tabs|
    ensures forall u: Tab :: start <= TabIndex(u) ==> Tabs[start..][TabIndex(u) - start] == u
    ensures forall i :: 0 <= i < |Tabs| - start ==> TabIndex(Tabs[start..][i]) == start + i
  {
    forall i | 0 <= i < |Tabs| - start ensures TabIndex(Tabs[start..][i]) == start + i {
      assert Tabs[start..][i] == Tabs[start + i];
    }
  }

  /** `tabs.slice(tabs.indexOf(t) + 1).find((tab) => !completion[tab])`. */
  function NextIncomplete(c: Completion, t: Tab): (r: Option<Tab>)
    ensures r.Some? ==> TabIndex(t) < TabIndex(r.value) && !c.At(r.value)
    ensures r.Some? ==> forall u: Tab :: TabIndex(t) < TabIndex(u) < TabIndex(r.value) ==> c.At(u)
    ensures r.None? ==> forall u: Tab :: TabIndex(t) < TabIndex(u) ==> c.At(u)
  {
    var start := TabIndex(t) + 1;
    var later := Tabs[start..];
    LaterTabs(start);
    match FirstIndex(later, (x: Tab) => !c.At(x))
    case Some(i) => Some(later[i])
    case None => None
  }

  /**
   * One run of the auto-advance effect: the active tab moves only when it was incomplete at
   * the previous run and is complete now, and then to the first incomplete tab after it, if any.
   */
  function Advance(active: Tab, previous: Option<Completion>, current: Completion): (r: Tab)
    ensures previous.None? ==> r == active
    ensures r != active ==> !previous.value.At(active) && current.At(active)
    ensures r != active ==> TabIndex(active) < TabIndex(r) && !current.At(r)
    ensures r != active ==> forall u: Tab :: TabIndex(active) < TabIndex(u) < TabIndex(r) ==> current.At(u)
    ensures (previous.Some? && !previous.value.At(active) && current.At(active)
             && exists u: Tab :: TabIndex(active) < TabIndex(u) && !current.At(u)) ==> r != active
  {
    if previous.Some? && !previous.value.At(active) && current.At(active) then
      match NextIncomplete(current, active)
      case Some(next) => next
      case None => active
    else active
  }

  /** Once the effect has recorded a completion, running it again on the same completion moves nothing. */
  lemma AdvanceSettles(active: Tab, c: Completion)
    ensures Advance(active, Some(c), c) == active
  {
  }

  /** The active tab and `previousCompletionRef` of the builder page. */
  class TabNavigator {
    var activeTab: Tab
    var previous: Option<Completion>

    constructor()
      ensures activeTab == PersonalTab && previous == None
    {
      activeTab := PersonalTab;
      previous := None;
    }

    /** A click on a tab. */
    method Select(t: Tab)
      modifies this
      ensures activeTab == t && previous == old(previous)
    {
      activeTab := t;
    }

    /** The effect on `[activeTab, completionByTab]`: maybe advance, then remember the completion. */
    method Evaluate(current: Completion)
      modifies this
      ensures activeTab == Advance(old(activeTab), old(previous), current)
      ensures previous == Some(current)
    {
      if previous.Some? && !previous.value.At(activeTab) && current.At(activeTab) {
        var next := NextIncomplete(current, activeTab);
        if next.Some? {
          activeTab := next.value;
        }
      }
      previous := Some(current);
    }
  }

  // ---------------------------------------------------------------------------------------
  // Draft title
  // ---------------------------------------------------------------------------------------

  const ResumeSuffix: string := " Resume"

  /** The title the page gives `upsertDraft`: `${full_name} Resume` when the name has text, else "Untitled Resume". */
  function DraftTitle(fullName: string): (r: string)
    ensures !IsBlank(r)
  {
    if HasText(fullName) then
      assert !IsSpace(ResumeSuffix[1]);
      NotBlankAfter(fullName, ResumeSuffix);
      fullName + ResumeSuffix
    else
      assert !IsSpace(UntitledTitle[0]);
      UntitledTitle
  }

  /** Trimming `${name} Resume` only drops the white space in front of the name. */
  lemma SuffixedTrim(fullName: string)
    requires !IsBlank(fullName)
    ensures Trim(fullName + ResumeSuffix) == TrimStart(fullName) + ResumeSuffix
  {
    assert ResumeSuffix[|ResumeSuffix| - 1] == 'e';
    TrimAppend(fullName, ResumeSuffix);
  }

  /** Leading white space of the name is dropped once the draft is stored; trailing white space stays before " Resume". */
  lemma DraftTitleStored(fullName: string)
    requires HasText(fullName)
    ensures TitleOrFallback(Some(DraftTitle(fullName)), fullName) == TrimStart(fullName) + ResumeSuffix
  {
    assert DraftTitle(fullName) == fullName + ResumeSuffix;
    SuffixedTrim(fullName);
  }

  /** The stored title of an unnamed document is the same "Untitled Resume" the storage fallback uses. */
  lemma DraftTitleUnnamed(fullName: string)
    requires !HasText(fullName)
    ensures TitleOrFallback(Some(DraftTitle(fullName)), fullName) == UntitledTitle
  {
    assert DraftTitle(fullName) == UntitledTitle;
    UntitledKept(fullName);
  }

  // ---------------------------------------------------------------------------------------
  // The list transforms of the text areas
  // ---------------------------------------------------------------------------------------

  /** A character absent from a string is absent from its trimmed part. */
  lemma TrimKeepsOut(s: string, c: char)
    requires c !in s
    ensures c !in Trim(s)
  {
    var a, b := TrimSlice(s);
  }

  /** `v.split(sep).map((s) => s.trim()).filter(Boolean)`. */
  function SplitList(v: string, sep: char): (r: seq<string>)
    ensures NormalStrings(r)
    ensures forall k :: 0 <= k < |r| ==> sep !in r[k]
    ensures |r| <= |Split(v, sep)|
  {
    var pieces := Split(v, sep);
    var trimmed := Map(pieces, Trim);
    forall k | 0 <= k < |pieces| ensures IsTrimmed(trimmed[k]) && sep !in trimmed[k] {
      TrimKeepsOut(pieces[k], sep);
    }
    FilterPreserves(trimmed, NonEmpty, (s: string) => IsTrimmed(s) && sep !in s);
    Filter(trimmed, NonEmpty)
  }

  /** The list is the trimmed pieces in order, and every piece with text is kept. */
  lemma SplitListKeeps(v: string, sep: char)
    ensures Subseq(SplitList(v, sep), Map(Split(v, sep), Trim))
    ensures forall k :: 0 <= k < |Split(v, sep)| && Trim(Split(v, sep)[k]) != "" ==> Trim(Split(v, sep)[k]) in SplitList(v, sep)
    ensures |SplitList(v, sep)| == CountTrue(Map(Map(Split(v, sep), Trim), NonEmpty))
  {
    var trimmed := Map(Split(v, sep), Trim);
    FilterIsSubseq(trimmed, NonEmpty);
    FilterCount(trimmed, NonEmpty);
    forall k | 0 <= k < |Split(v, sep)| && Trim(Split(v, sep)[k]) != "" ensures Trim(Split(v, sep)[k]) in SplitList(v, sep) {
      assert trimmed[k] in trimmed && NonEmpty(trimmed[k]);
    }
  }

  /** The `setValueAs` transform: a string becomes the list, anything else passes through. */
  function ListTransform(v: Json, sep: char): (r: Json)
    ensures v.JStr? ==> r == EncodeStrings(SplitList(v.s, sep))
    ensures !v.JStr? ==> r == v
  {
    if v.JStr? then EncodeStrings(SplitList(v.s, sep)) else v
  }

  /** An empty text area gives the empty list. */
  lemma SplitListEmpty(sep: char)
    ensures SplitList("", sep) == []
  {
    assert Split("", sep) == [""];
    assert Map([""], Trim) == [""];
  }

  /** Splitting the join of trimmed, separator-free items gives the items back. */
  lemma SplitListJoin(xs: seq<string>, sep: char)
    requires NormalStrings(xs) && forall k :: 0 <= k < |xs| ==> sep !in xs[k]
    ensures SplitList(Join(xs, [sep]), sep) == xs
  {
    if xs == [] {
      SplitListEmpty(sep);
    } else {
      SplitJoin(xs, sep);
      TrimAllClean(xs);
      FilterKeepsAll(xs, NonEmpty);
    }
  }

  lemma TrimAllClean(xs: seq<string>)
    requires NormalStrings(xs)
    ensures Map(xs, Trim) == xs
  {
    forall k | 0 <= k < |xs| ensures Trim(xs[k]) == xs[k] {
      TrimTrimmed(xs[k]);
    }
  }

  /** The transform is idempotent through a join: re-entering its result as text gives the same list. */
  lemma SplitListIdempotent(v: string, sep: char)
    ensures SplitList(Join(SplitList(v, sep), [sep]), sep) == SplitList(v, sep)
  {
    SplitListJoin(SplitList(v, sep), sep);
  }

  // ---------------------------------------------------------------------------------------
  // What a text area shows for a list, and the round trip through its transform
  // ---------------------------------------------------------------------------------------

  /** A text area registered on a list field shows `String(list)`: the items joined by ",". */
  function ShownText(xs: seq<string>): (r: string)
    ensures r == Join(xs, ",")
  {
    var items := Map(xs, Str);
    assert seq(|items|, i requires 0 <= i < |items| => if items[i].JNull? then "" else ToJsString(items[i])) == xs;
    ToJsString(EncodeStrings(xs))
  }

  /** A comma field edited without change gives its list back. */
  lemma CommaFieldRoundTrip(xs: seq<string>)
    requires NormalStrings(xs) && forall k :: 0 <= k < |xs| ==> ',' !in xs[k]
    ensures ListTransform(JStr(ShownText(xs)), ',') == EncodeStrings(xs)
  {
    SplitListJoin(xs, ',');
  }

  /** As written: a line field shows its items joined by ",", so an edit re-splits on "\n" into one merged item. */
  lemma LineFieldMergesItems()
    ensures ListTransform(JStr(ShownText(["A", "B"])), '\n') == EncodeStrings(["A,B"])
  {
    var text := ShownText(["A", "B"]);
    assert text == "A,B" by {
      assert Join(["A", "B"], ",") == "A" + "," + Join(["B"], ",");
    }
    assert IsClean(text) && '\n' !in text;
    SplitListJoin([text], '\n');
  }

  lemma SplitJoinIfFree(xs: seq<string>, sep: char)
    ensures |xs| >= 1 && (forall k :: 0 <= k < |xs| ==> sep !in xs[k]) ==> Split(Join(xs, [sep]), sep) == xs
  {
    if |xs| >= 1 && forall k :: 0 <= k < |xs| ==> sep !in xs[k] {
      SplitJoin(xs, sep);
    }
  }

  /** The text a line field would need to show: one item per line. */
  function LineText(xs: seq<string>): (r: string)
    ensures |xs| >= 1 && (forall k :: 0 <= k < |xs| ==> '\n' !in xs[k]) ==> Split(r, '\n') == xs
  {
    SplitJoinIfFree(xs, '\n');
    Join(xs, "\n")
  }

  /** Shown one item per line, a line field edited without change gives its list back. */
  lemma LineFieldRoundTrip(xs: seq<string>)
    requires NormalStrings(xs) && forall k :: 0 <= k < |xs| ==> '\n' !in xs[k]
    ensures ListTransform(JStr(LineText(xs)), '\n') == EncodeStrings(xs)
  {
    SplitListJoin(xs, '\n');
  }
}
