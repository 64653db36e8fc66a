/**
 * The resume document as the front end types it (frontend/types/index.ts), the legacy
 * four-bucket skills shape (backend/app/schemas/cv.py), and the JavaScript object each
 * record is when it is handed to the schema or serialised.
 */
module CvTypes {
  import opened Wrappers
  import opened Seqs
  import opened JsonValue

  datatype SkillCategory = SkillCategory(title: string, skills: seq<string>)

  datatype Project = Project(
    title: string,
    startMonth: string, startYear: string, endMonth: string, endYear: string,
    githubUrl: Option<string>, liveUrl: Option<string>,
    techStack: seq<string>, bullets: seq<string>)

  datatype WorkExperience = WorkExperience(
    role: string, company: string, employmentType: string, location: string,
    startMonth: string, startYear: string, endMonth: string, endYear: string,
    bullets: seq<string>)

  datatype Education = Education(
    institution: string, degree: string, startYear: string, endYear: string,
    coursework: seq<string>)

  /** The optional URL fields are None when the key is absent from the object. */
  datatype CVData = CVData(
    fullName: string, city: string, country: string, email: string, phone: string,
    portfolioUrl: Option<string>, linkedinUrl: Option<string>, githubUrl: Option<string>,
    technicalSkills: seq<SkillCategory>,
    projects: seq<Project>,
    workExperience: seq<WorkExperience>,
    education: seq<Education>)

  /** A bucket of the legacy skills object and the category title it migrates to. */
  datatype LegacyBucket = LegacyBucket(key: string, title: string)

  /** The legacy buckets in the fixed order of the migrated category list. */
  const LegacyBuckets: seq<LegacyBucket> := [
    LegacyBucket("languages", "Languages"),
    LegacyBucket("frameworks", "Frameworks/Libraries"),
    LegacyBucket("tools", "Tools"),
    LegacyBucket("databases", "Databases")
  ]

  function Str(s: string): Json {
    JStr(s)
  }

  function EncodeStrings(xs: seq<string>): Json {
    JArr(Map(xs, Str))
  }

  /** Adds `key` only when the optional field is present. */
  function WithOptional(m: map<string, Json>, key: string, o: Option<string>): map<string, Json> {
    if o.Some? then m[key := JStr(o.value)] else m
  }

  function EncodeSkill(c: SkillCategory): Json {
    JObj(map["title" := JStr(c.title), "skills" := EncodeStrings(c.skills)])
  }

  function EncodeSkills(cs: seq<SkillCategory>): Json {
    JArr(Map(cs, EncodeSkill))
  }

  /** The keys a project always has. */
  function ProjectCore(p: Project): map<string, Json> {
    map[
      "title" := JStr(p.title),
      "start_month" := JStr(p.startMonth), "start_year" := JStr(p.startYear),
      "end_month" := JStr(p.endMonth), "end_year" := JStr(p.endYear),
      "tech_stack" := EncodeStrings(p.techStack), "bullets" := EncodeStrings(p.bullets)]
  }

  function EncodeProject(p: Project): Json {
    JObj(WithOptional(WithOptional(ProjectCore(p), "github_url", p.githubUrl), "live_url", p.liveUrl))
  }

  function EncodeExperience(e: WorkExperience): Json {
    JObj(map[
      "role" := JStr(e.role), "company" := JStr(e.company),
      "employment_type" := JStr(e.employmentType), "location" := JStr(e.location),
      "start_month" := JStr(e.startMonth), "start_year" := JStr(e.startYear),
      "end_month" := JStr(e.endMonth), "end_year" := JStr(e.endYear),
      "bullets" := EncodeStrings(e.bullets)])
  }

  function EncodeEducation(e: Education): Json {
    JObj(map[
      "institution" := JStr(e.institution), "degree" := JStr(e.degree),
      "start_year" := JStr(e.startYear), "end_year" := JStr(e.endYear),
      "coursework" := EncodeStrings(e.coursework)])
  }

  /** The document as a plain object: what the schema parses and what storage serialises. */
  function Encode(cv: CVData): Json {
    var m := map[
      "full_name" := JStr(cv.fullName), "city" := JStr(cv.city), "country" := JStr(cv.country),
      "email" := JStr(cv.email), "phone" := JStr(cv.phone),
      "technical_skills" := EncodeSkills(cv.technicalSkills),
      "projects" := JArr(Map(cv.projects, EncodeProject)),
      "work_experience" := JArr(Map(cv.workExperience, EncodeExperience)),
      "education" := JArr(Map(cv.education, EncodeEducation))];
    JObj(WithOptional(WithOptional(WithOptional(m,
      "portfolio_url", cv.portfolioUrl), "linkedin_url", cv.linkedinUrl), "github_url", cv.githubUrl))
  }

  // ---------------------------------------------------------------------------------------
  // Reading the encoded objects back, key by key
  // ---------------------------------------------------------------------------------------

  lemma SkillFields(c: SkillCategory)
    ensures Get(EncodeSkill(c), "title") == JStr(c.title)
    ensures Get(EncodeSkill(c), "skills") == EncodeStrings(c.skills)
  {
  }

  lemma WithOptionalKeeps(m: map<string, Json>, key: string, o: Option<string>, k: string)
    requires k in m && k != key
    ensures k in WithOptional(m, key, o) && WithOptional(m, key, o)[k] == m[k]
  {
  }

  lemma ProjectFields(p: Project)
    ensures var v := EncodeProject(p);
      && Get(v, "title") == JStr(p.title)
      && Get(v, "start_month") == JStr(p.startMonth) && Get(v, "start_year") == JStr(p.startYear)
      && Get(v, "end_month") == JStr(p.endMonth) && Get(v, "end_year") == JStr(p.endYear)
      && Get(v, "tech_stack") == EncodeStrings(p.techStack) && Get(v, "bullets") == EncodeStrings(p.bullets)
    ensures p.githubUrl.Some? ==> Get(EncodeProject(p), "github_url") == JStr(p.githubUrl.value)
    ensures p.liveUrl.Some? ==> Get(EncodeProject(p), "live_url") == JStr(p.liveUrl.value)
  {
    var core := ProjectCore(p);
    var gh := WithOptional(core, "github_url", p.githubUrl);
    forall k | k in core && k != "github_url" && k != "live_url"
      ensures Get(EncodeProject(p), k) == core[k]
    {
      WithOptionalKeeps(core, "github_url", p.githubUrl, k);
      WithOptionalKeeps(gh, "live_url", p.liveUrl, k);
    }
    if p.githubUrl.Some? {
      WithOptionalKeeps(gh, "live_url", p.liveUrl, "github_url");
    }
  }

  lemma ExperienceFields(e: WorkExperience)
    ensures var v := EncodeExperience(e);
      && Get(v, "role") == JStr(e.role) && Get(v, "company") == JStr(e.company)
      && Get(v, "employment_type") == JStr(e.employmentType) && Get(v, "location") == JStr(e.location)
      && Get(v, "start_month") == JStr(e.startMonth) && Get(v, "start_year") == JStr(e.startYear)
      && Get(v, "end_month") == JStr(e.endMonth) && Get(v, "end_year") == JStr(e.endYear)
      && Get(v, "bullets") == EncodeStrings(e.bullets)
  {
  }

  lemma EducationFields(e: Education)
    ensures var v := EncodeEducation(e);
      && Get(v, "institution") == JStr(e.institution) && Get(v, "degree") == JStr(e.degree)
      && Get(v, "start_year") == JStr(e.startYear) && Get(v, "end_year") == JStr(e.endYear)
      && Get(v, "coursework") == EncodeStrings(e.coursework)
  {
  }

  lemma UrlFields(cv: CVData)
    ensures cv.portfolioUrl.Some? ==> Get(Encode(cv), "portfolio_url") == JStr(cv.portfolioUrl.value)
    ensures cv.linkedinUrl.Some? ==> Get(Encode(cv), "linkedin_url") == JStr(cv.linkedinUrl.value)
    ensures cv.githubUrl.Some? ==> Get(Encode(cv), "github_url") == JStr(cv.githubUrl.value)
  {
  }
}
