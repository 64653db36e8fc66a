/**
 * The normaliser of the AI chat route (frontend/app/api/ai/chat/route.ts): whatever JSON the
 * language model returns is coerced field by field into a complete resume document, with a
 * fixed default wherever a required value is missing or unusable. The route's promise is that
 * the result always passes CVDataSchema; the model proves it, and that normalising twice is
 * the same as normalising once.
 */
module ChatNormalize {
  import opened Wrappers
  import opened Strings
  import opened Seqs
  import opened JsonValue
  import opened CvTypes
  import opened Validators

  // ---------------------------------------------------------------------------------------
  // The shape of a normalised document
  // ---------------------------------------------------------------------------------------

  /** A free-text field after normalisation: empty or trimmed text. */
  predicate CleanOrEmpty(s: string) {
    s == "" || IsClean(s)
  }

  /** A string list after normalisation: every entry non-empty and trimmed. */
  predicate NormalStrings(xs: seq<string>) {
    forall k :: 0 <= k < |xs| ==> IsClean(xs[k])
  }

  /** A URL field after normalisation: present, and either "" or a trimmed URL. */
  predicate NormalUrl(u: Option<string>) {
    u.Some? && (u.value == "" || (IsClean(u.value) && IsUrl(u.value)))
  }

  predicate NormalCategory(c: SkillCategory) {
    CleanOrEmpty(c.title) && NormalStrings(c.skills) && (c.title != "" || c.skills != [])
  }

  predicate NormalProject(p: Project) {
    && IsClean(p.title)
    && CleanOrEmpty(p.startMonth) && CleanOrEmpty(p.startYear)
    && CleanOrEmpty(p.endMonth) && CleanOrEmpty(p.endYear)
    && NormalUrl(p.githubUrl) && NormalUrl(p.liveUrl)
    && NormalStrings(p.techStack) && NormalStrings(p.bullets)
  }

  predicate NormalExperience(e: WorkExperience) {
    && IsClean(e.role) && IsClean(e.company)
    && CleanOrEmpty(e.employmentType) && CleanOrEmpty(e.location)
    && CleanOrEmpty(e.startMonth) && CleanOrEmpty(e.startYear)
    && CleanOrEmpty(e.endMonth) && CleanOrEmpty(e.endYear)
    && NormalStrings(e.bullets)
  }

  predicate NormalEducation(e: Education) {
    && IsClean(e.institution) && IsClean(e.degree)
    && CleanOrEmpty(e.startYear) && CleanOrEmpty(e.endYear)
    && NormalStrings(e.coursework)
  }

  /** Every document the normaliser can produce has this shape, and every document of this shape is produced. */
  predicate NormalCV(cv: CVData) {
    && IsClean(cv.fullName) && IsClean(cv.city) && IsClean(cv.country) && IsClean(cv.phone)
    && IsClean(cv.email) && IsEmail(cv.email)
    && NormalUrl(cv.portfolioUrl) && NormalUrl(cv.linkedinUrl) && NormalUrl(cv.githubUrl)
    && (forall k :: 0 <= k < |cv.technicalSkills| ==> NormalCategory(cv.technicalSkills[k]))
    && (forall k :: 0 <= k < |cv.projects| ==> NormalProject(cv.projects[k]))
    && (forall k :: 0 <= k < |cv.workExperience| ==> NormalExperience(cv.workExperience[k]))
    && (forall k :: 0 <= k < |cv.education| ==> NormalEducation(cv.education[k]))
  }

  // ---------------------------------------------------------------------------------------
  // Field coercions
  // ---------------------------------------------------------------------------------------

  /** The text of a number, boolean or string; nothing for null, arrays and objects. */
  function PrimitiveText(v: Json): Option<string> {
    match v
    case JNum(_) => Some(ToJsString(v))
    case JBool(_) => Some(ToJsString(v))
    case JStr(s) => Some(s)
    case _ => None
  }

  /** `asString(value, fallback)`: the trimmed text of a primitive, or the fallback when that is empty. */
  function AsString(v: Json, fallback: string): (r: string)
    ensures r == fallback || IsClean(r)
    ensures PrimitiveText(v).None? ==> r == fallback
    ensures PrimitiveText(v).Some? && r != fallback ==> r == Trim(PrimitiveText(v).value)
    ensures PrimitiveText(v).Some? && Trim(PrimitiveText(v).value) != "" ==> r == Trim(PrimitiveText(v).value)
    ensures PrimitiveText(v).Some? && Trim(PrimitiveText(v).value) == "" ==> r == fallback
  {
    match PrimitiveText(v)
    case None => fallback
    case Some(t) => var n := Trim(t); if n != "" then n else fallback
  }

  /** A trimmed non-empty string is returned as it is. */
  lemma AsStringClean(s: string, fallback: string)
    requires IsClean(s)
    ensures AsString(JStr(s), fallback) == s
  {
    TrimTrimmed(s);
  }

  /** A blank string, like a missing value, gives the fallback. */
  lemma AsStringBlank(s: string, fallback: string)
    requires IsBlank(s)
    ensures AsString(JStr(s), fallback) == fallback
  {
    TrimBlank(s);
  }

  /** `asString(value)`: the default fallback is "". */
  function AsText(v: Json): (r: string)
    ensures CleanOrEmpty(r)
  {
    AsString(v, "")
  }

  const EmailFallback: string := "candidate@example.com"

  lemma PlaceholderParts()
    ensures IsEmail("candidate" + "@" + "example" + "." + "com")
  {
    assert IsLocalPart("candidate") && '.' !in "candidate";
    assert IsDomainLabel("example") && IsTopLevelLabel("com");
    EmailOfParts("candidate", "example", "com");
  }

  lemma PlaceholderSpelling()
    ensures EmailFallback == "candidate" + "@" + "example" + "." + "com"
  {
  }

  /** The placeholder address passes the same e-mail rule the schema applies. */
  lemma PlaceholderIsEmail()
    ensures IsEmail(EmailFallback)
  {
    PlaceholderParts();
    PlaceholderSpelling();
  }

  lemma PlaceholderIsClean()
    ensures IsClean(EmailFallback)
  {
  }

  /** `safeEmail`: the trimmed value when it is an e-mail address, the placeholder otherwise. */
  function SafeEmail(v: Json): (r: string)
    ensures IsEmail(r) && IsClean(r)
    ensures r != EmailFallback ==> r == AsString(v, EmailFallback)
    ensures IsEmail(AsString(v, EmailFallback)) ==> r == AsString(v, EmailFallback)
    ensures !IsEmail(AsString(v, EmailFallback)) ==> r == EmailFallback
  {
    PlaceholderIsEmail();
    PlaceholderIsClean();
    var candidate := AsString(v, EmailFallback);
    if IsEmail(candidate) then candidate else EmailFallback
  }


  predicate NonEmpty(s: string) {
    s != ""
  }

  /** `asStringArray`: the non-empty trimmed texts of the array's primitives, in order; [] for a non-array. */
  function AsStringArray(v: Json): (r: seq<string>)
    ensures NormalStrings(r)
    ensures v.JArr? ==> |r| <= |v.items| && Subseq(r, Map(v.items, AsText))
    ensures !v.JArr? ==> r == []
  {
    if v.JArr? then
      var texts := Map(v.items, AsText);
      var kept := Filter(texts, NonEmpty);
      FilterIsSubseq(texts, NonEmpty);
      assert forall k :: 0 <= k < |kept| ==> kept[k] != "" && kept[k] in texts;
      kept
    else []
  }

  /** Every item whose coerced text is not empty is kept. */
  lemma AsStringArrayKeeps(items: seq<Json>)
    ensures forall k :: 0 <= k < |items| && AsText(items[k]) != "" ==> AsText(items[k]) in AsStringArray(JArr(items))
    ensures |AsStringArray(JArr(items))| == CountTrue(Map(Map(items, AsText), NonEmpty))
  {
    var texts := Map(items, AsText);
    FilterCount(texts, NonEmpty);
    forall k | 0 <= k < |items| && AsText(items[k]) != "" ensures AsText(items[k]) in AsStringArray(JArr(items)) {
      assert texts[k] in texts && NonEmpty(texts[k]);
    }
  }

  /** `safeUrl`: the trimmed value when the URL parser accepts it, "" otherwise. */
  function SafeUrl(v: Json): (r: string)
    ensures r == "" || (IsClean(r) && IsUrl(r))
    ensures r != "" ==> r == AsString(v, "")
    ensures IsUrl(AsString(v, "")) ==> r == AsString(v, "")
    ensures !IsUrl(AsString(v, "")) ==> r == ""
  {
    var candidate := AsString(v, "");
    if candidate == "" then "" else if IsUrl(candidate) then candidate else ""
  }

  // ---------------------------------------------------------------------------------------
  // Skills: the category list, or the legacy four-bucket object migrated to it
  // ---------------------------------------------------------------------------------------

  function CoerceCategory(v: Json): SkillCategory {
    SkillCategory(AsText(Get(v, "title")), AsStringArray(Get(v, "skills")))
  }

  predicate KeepCategory(c: SkillCategory) {
    c.title != "" || |c.skills| > 0
  }

  function LegacyCategory(v: Json, b: LegacyBucket): SkillCategory {
    SkillCategory(b.title, AsStringArray(Get(v, b.key)))
  }

  predicate HasSkills(c: SkillCategory) {
    |c.skills| > 0
  }

  function LegacyCategories(v: Json): seq<SkillCategory> {
    Map(LegacyBuckets, b => LegacyCategory(v, b))
  }

  lemma LegacyTitlesClean()
    ensures forall k :: 0 <= k < |LegacyBuckets| ==> IsClean(LegacyBuckets[k].title)
  {
    assert IsClean("Languages");
    assert IsClean("Frameworks/Libraries");
    assert IsClean("Tools");
    assert IsClean("Databases");
  }

  /** `normalizeTechnicalSkills` */
  function NormalizeTechnicalSkills(v: Json): (r: seq<SkillCategory>)
    ensures forall k :: 0 <= k < |r| ==> NormalCategory(r[k])
    ensures v.JArr? ==> |r| <= |v.items|
    ensures v.JObj? ==> |r| <= |LegacyBuckets| && forall k :: 0 <= k < |r| ==> r[k].skills != []
    ensures !v.JArr? && !v.JObj? ==> r == []
  {
    match v
    case JArr(items) =>
      var cs := Map(items, CoerceCategory);
      var kept := Filter(cs, KeepCategory);
      assert forall k :: 0 <= k < |kept| ==> KeepCategory(kept[k]) && kept[k] in cs;
      kept
    case JObj(_) =>
      var cs := LegacyCategories(v);
      LegacyTitlesClean();
      Filter(cs, HasSkills)
    case _ => []
  }

  /** An array item becomes a category exactly when its coerced title or skill list is non-empty. */
  lemma ArrayCategoryKept(items: seq<Json>, k: nat)
    requires k < |items|
    ensures var c := CoerceCategory(items[k]);
      c in NormalizeTechnicalSkills(JArr(items)) <==> c.title != "" || c.skills != []
  {
    var cs := Map(items, CoerceCategory);
    assert cs[k] == CoerceCategory(items[k]) && cs[k] in cs;
  }

  /** The array's categories come out in the order of their items. */
  lemma ArrayOrder(items: seq<Json>)
    ensures Subseq(NormalizeTechnicalSkills(JArr(items)), Map(items, CoerceCategory))
    ensures |NormalizeTechnicalSkills(JArr(items))| == CountTrue(Map(Map(items, CoerceCategory), KeepCategory))
  {
    FilterIsSubseq(Map(items, CoerceCategory), KeepCategory);
    FilterCount(Map(items, CoerceCategory), KeepCategory);
  }

  /** A legacy bucket becomes a category exactly when it holds at least one usable skill. */
  lemma LegacyBucketKept(v: Json, k: nat)
    requires v.JObj? && k < |LegacyBuckets|
    ensures var c := LegacyCategory(v, LegacyBuckets[k]);
      c in NormalizeTechnicalSkills(v) <==> AsStringArray(Get(v, LegacyBuckets[k].key)) != []
  {
    var cs := LegacyCategories(v);
    assert cs[k] == LegacyCategory(v, LegacyBuckets[k]);
  }

  /** The migrated categories keep the fixed bucket order: Languages, Frameworks/Libraries, Tools, Databases,
      and only the empty buckets are dropped. */
  lemma LegacyOrder(v: Json)
    requires v.JObj?
    ensures Subseq(NormalizeTechnicalSkills(v), LegacyCategories(v))
    ensures |NormalizeTechnicalSkills(v)| == CountTrue(Map(LegacyCategories(v), HasSkills))
  {
    FilterIsSubseq(LegacyCategories(v), HasSkills);
    FilterCount(LegacyCategories(v), HasSkills);
  }

  // ---------------------------------------------------------------------------------------
  // Entries and the whole document
  // ---------------------------------------------------------------------------------------

  /** The defaults the route substitutes for missing required fields are themselves non-empty and trimmed. */
  lemma DefaultsClean()
    ensures IsClean("Project") && IsClean("Role") && IsClean("Company")
    ensures IsClean("Institution") && IsClean("Degree")
    ensures IsClean("Candidate Name") && IsClean("Dhaka") && IsClean("Bangladesh") && IsClean("N/A")
  {
  }

  function NormalizeProject(v: Json): (r: Project)
    ensures NormalProject(r)
    ensures r.title == AsString(Get(v, "title"), "Project")
    ensures r.startMonth == AsText(Get(v, "start_month")) && r.startYear == AsText(Get(v, "start_year"))
    ensures r.endMonth == AsText(Get(v, "end_month")) && r.endYear == AsText(Get(v, "end_year"))
    ensures r.githubUrl == Some(SafeUrl(Get(v, "github_url"))) && r.liveUrl == Some(SafeUrl(Get(v, "live_url")))
    ensures r.techStack == AsStringArray(Get(v, "tech_stack")) && r.bullets == AsStringArray(Get(v, "bullets"))
  {
    DefaultsClean();
    Project(
      AsString(Get(v, "title"), "Project"),
      AsText(Get(v, "start_month")), AsText(Get(v, "start_year")),
      AsText(Get(v, "end_month")), AsText(Get(v, "end_year")),
      Some(SafeUrl(Get(v, "github_url"))), Some(SafeUrl(Get(v, "live_url"))),
      AsStringArray(Get(v, "tech_stack")), AsStringArray(Get(v, "bullets")))
  }

  function NormalizeExperience(v: Json): (r: WorkExperience)
    ensures NormalExperience(r)
    ensures r.role == AsString(Get(v, "role"), "Role") && r.company == AsString(Get(v, "company"), "Company")
    ensures r.employmentType == AsText(Get(v, "employment_type")) && r.location == AsText(Get(v, "location"))
    ensures r.startMonth == AsText(Get(v, "start_month")) && r.startYear == AsText(Get(v, "start_year"))
    ensures r.endMonth == AsText(Get(v, "end_month")) && r.endYear == AsText(Get(v, "end_year"))
    ensures r.bullets == AsStringArray(Get(v, "bullets"))
  {
    DefaultsClean();
    WorkExperience(
      AsString(Get(v, "role"), "Role"), AsString(Get(v, "company"), "Company"),
      AsText(Get(v, "employment_type")), AsText(Get(v, "location")),
      AsText(Get(v, "start_month")), AsText(Get(v, "start_year")),
      AsText(Get(v, "end_month")), AsText(Get(v, "end_year")),
      AsStringArray(Get(v, "bullets")))
  }

  function NormalizeEducation(v: Json): (r: Education)
    ensures NormalEducation(r)
    ensures r.institution == AsString(Get(v, "institution"), "Institution")
    ensures r.degree == AsString(Get(v, "degree"), "Degree")
    ensures r.startYear == AsText(Get(v, "start_year")) && r.endYear == AsText(Get(v, "end_year"))
    ensures r.coursework == AsStringArray(Get(v, "coursework"))
  {
    DefaultsClean();
    Education(
      AsString(Get(v, "institution"), "Institution"), AsString(Get(v, "degree"), "Degree"),
      AsText(Get(v, "start_year")), AsText(Get(v, "end_year")),
      AsStringArray(Get(v, "coursework")))
  }

  /** `Array.isArray(v) ? v.map(f) : []` */
  function MapArray<T>(v: Json, f: Json -> T): (r: seq<T>)
    ensures v.JArr? ==> |r| == |v.items| && forall k :: 0 <= k < |r| ==> r[k] == f(v.items[k])
    ensures !v.JArr? ==> r == []
  {
    if v.JArr? then Map(v.items, f) else []
  }

  /** Every normalised entry has the normal shape. */
  lemma EntriesNormal(projects: Json, experience: Json, education: Json)
    ensures forall k :: 0 <= k < |MapArray(projects, NormalizeProject)| ==> NormalProject(MapArray(projects, NormalizeProject)[k])
    ensures forall k :: 0 <= k < |MapArray(experience, NormalizeExperience)| ==>
      NormalExperience(MapArray(experience, NormalizeExperience)[k])
    ensures forall k :: 0 <= k < |MapArray(education, NormalizeEducation)| ==>
      NormalEducation(MapArray(education, NormalizeEducation)[k])
  {
  }

  /** `normalizeCVData`: a complete document that the schema accepts, whatever `raw` is. */
  function NormalizeCVData(raw: Json): (r: CVData)
    ensures NormalCV(r)
    ensures r.fullName == AsString(Get(raw, "full_name"), "Candidate Name")
    ensures r.city == AsString(Get(raw, "city"), "Dhaka")
    ensures r.country == AsString(Get(raw, "country"), "Bangladesh")
    ensures r.phone == AsString(Get(raw, "phone"), "N/A")
    ensures r.email == SafeEmail(Get(raw, "email"))
    ensures r.portfolioUrl == Some(SafeUrl(Get(raw, "portfolio_url")))
    ensures r.linkedinUrl == Some(SafeUrl(Get(raw, "linkedin_url")))
    ensures r.githubUrl == Some(SafeUrl(Get(raw, "github_url")))
    ensures r.technicalSkills == NormalizeTechnicalSkills(Get(raw, "technical_skills"))
    ensures Get(raw, "projects").JArr? ==> |r.projects| == |Get(raw, "projects").items|
    ensures Get(raw, "work_experience").JArr? ==> |r.workExperience| == |Get(raw, "work_experience").items|
    ensures Get(raw, "education").JArr? ==> |r.education| == |Get(raw, "education").items|
    ensures !Get(raw, "projects").JArr? ==> r.projects == []
    ensures !Get(raw, "work_experience").JArr? ==> r.workExperience == []
    ensures !Get(raw, "education").JArr? ==> r.education == []
  {
    DefaultsClean();
    var fullName := AsString(Get(raw, "full_name"), "Candidate Name");
    var city := AsString(Get(raw, "city"), "Dhaka");
    var country := AsString(Get(raw, "country"), "Bangladesh");
    var phone := AsString(Get(raw, "phone"), "N/A");
    assert IsClean(fullName) && IsClean(city) && IsClean(country) && IsClean(phone);
    var projects := MapArray(Get(raw, "projects"), NormalizeProject);
    var experience := MapArray(Get(raw, "work_experience"), NormalizeExperience);
    var education := MapArray(Get(raw, "education"), NormalizeEducation);
    EntriesNormal(Get(raw, "projects"), Get(raw, "work_experience"), Get(raw, "education"));
    CVData(
      fullName, city, country, SafeEmail(Get(raw, "email")), phone,
      Some(SafeUrl(Get(raw, "portfolio_url"))),
      Some(SafeUrl(Get(raw, "linkedin_url"))),
      Some(SafeUrl(Get(raw, "github_url"))),
      NormalizeTechnicalSkills(Get(raw, "technical_skills")),
      projects, experience, education)
  }

  /** Each entry is the normalisation of the item at the same position: no entry is dropped or moved. */
  lemma NormalizedEntries(raw: Json)
    ensures var r := NormalizeCVData(raw);
      && (forall k :: 0 <= k < |r.projects| ==> r.projects[k] == NormalizeProject(Get(raw, "projects").items[k]))
      && (forall k :: 0 <= k < |r.workExperience| ==>
            r.workExperience[k] == NormalizeExperience(Get(raw, "work_experience").items[k]))
      && (forall k :: 0 <= k < |r.education| ==> r.education[k] == NormalizeEducation(Get(raw, "education").items[k]))
  {
  }

  /** A value that is not a primitive, or whose text is blank, gives the fallback. */
  lemma FallbackApplies(v: Json, fallback: string)
    requires PrimitiveText(v).None? || IsBlank(PrimitiveText(v).value)
    ensures AsString(v, fallback) == fallback
  {
    if PrimitiveText(v).Some? {
      TrimEmptyIffBlank(PrimitiveText(v).value);
    }
  }

  /** A text field that is missing, not a primitive, or blank. */
  predicate Unusable(raw: Json, key: string) {
    PrimitiveText(Get(raw, key)).None? || IsBlank(PrimitiveText(Get(raw, key)).value)
  }

  /** A name, city, country or phone that is missing, not a primitive, or blank is replaced by its default. */
  lemma NormalizedDefaults(raw: Json)
    ensures Unusable(raw, "full_name") ==> NormalizeCVData(raw).fullName == "Candidate Name"
    ensures Unusable(raw, "city") ==> NormalizeCVData(raw).city == "Dhaka"
    ensures Unusable(raw, "country") ==> NormalizeCVData(raw).country == "Bangladesh"
    ensures Unusable(raw, "phone") ==> NormalizeCVData(raw).phone == "N/A"
  {
    if Unusable(raw, "full_name") { FallbackApplies(Get(raw, "full_name"), "Candidate Name"); }
    if Unusable(raw, "city") { FallbackApplies(Get(raw, "city"), "Dhaka"); }
    if Unusable(raw, "country") { FallbackApplies(Get(raw, "country"), "Bangladesh"); }
    if Unusable(raw, "phone") { FallbackApplies(Get(raw, "phone"), "N/A"); }
  }

  /** A project title, role, company, institution or degree that is missing, not a primitive, or blank is replaced by its default. */
  lemma NormalizedEntryDefaults(v: Json)
    ensures Unusable(v, "title") ==> NormalizeProject(v).title == "Project"
    ensures Unusable(v, "role") ==> NormalizeExperience(v).role == "Role"
    ensures Unusable(v, "company") ==> NormalizeExperience(v).company == "Company"
    ensures Unusable(v, "institution") ==> NormalizeEducation(v).institution == "Institution"
    ensures Unusable(v, "degree") ==> NormalizeEducation(v).degree == "Degree"
  {
    if Unusable(v, "title") { FallbackApplies(Get(v, "title"), "Project"); }
    if Unusable(v, "role") { FallbackApplies(Get(v, "role"), "Role"); }
    if Unusable(v, "company") { FallbackApplies(Get(v, "company"), "Company"); }
    if Unusable(v, "institution") { FallbackApplies(Get(v, "institution"), "Institution"); }
    if Unusable(v, "degree") { FallbackApplies(Get(v, "degree"), "Degree"); }
  }

  /** A project title given as text that is not blank is kept, trimmed. */
  lemma NormalizedProjectKept(v: Json, title: string)
    requires Get(v, "title") == JStr(title) && !IsBlank(title)
    ensures NormalizeProject(v).title == Trim(title)
  {
    TrimEmptyIffBlank(title);
    assert AsString(JStr(title), "Project") == Trim(title);
  }

  /** A name given as text that is not blank is kept, trimmed. */
  lemma NormalizedNameKept(raw: Json, name: string)
    requires Get(raw, "full_name") == JStr(name) && !IsBlank(name)
    ensures NormalizeCVData(raw).fullName == Trim(name)
  {
    TrimEmptyIffBlank(name);
    assert AsString(JStr(name), "Candidate Name") == Trim(name);
  }

  /** The normal shape meets every rule of the schema. */
  lemma NormalIsValid(cv: CVData)
    requires NormalCV(cv)
    ensures Valid(cv)
  {
    assert forall k :: 0 <= k < |cv.projects| ==> ValidProject(cv.projects[k]) by {
      forall k | 0 <= k < |cv.projects| ensures ValidProject(cv.projects[k]) {
        assert NormalProject(cv.projects[k]);
      }
    }
  }

  /** Whatever the model returned, the normalised document meets every rule of the schema. */
  lemma NormalizedIsValid(raw: Json)
    ensures Valid(NormalizeCVData(raw))
  {
    NormalIsValid(NormalizeCVData(raw));
  }

  /** The route's promise: the normalised document, as an object, passes CVDataSchema. */
  lemma NormalizedIsAccepted(raw: Json)
    ensures Accepts(Encode(NormalizeCVData(raw)))
  {
    NormalizedIsValid(raw);
    AcceptsEncodeIffValid(NormalizeCVData(raw));
  }

  // ---------------------------------------------------------------------------------------
  // Normal documents are fixed points
  // ---------------------------------------------------------------------------------------

  lemma AsStringArrayEncode(xs: seq<string>)
    requires NormalStrings(xs)
    ensures AsStringArray(EncodeStrings(xs)) == xs
  {
    var texts := Map(Map(xs, Str), AsText);
    forall k | 0 <= k < |xs| ensures texts[k] == xs[k] {
      AsStringClean(xs[k], "");
    }
    assert texts == xs;
    FilterKeepsAll(xs, NonEmpty);
  }

  lemma CleanOrEmptyFixed(s: string, fallback: string)
    requires CleanOrEmpty(s) && (s == "" ==> fallback == "")
    ensures AsString(JStr(s), fallback) == s
  {
    if s != "" {
      AsStringClean(s, fallback);
    }
  }

  lemma SafeUrlFixed(u: Option<string>)
    requires NormalUrl(u)
    ensures SafeUrl(JStr(u.value)) == u.value
  {
    CleanOrEmptyFixed(u.value, "");
  }

  lemma TextFieldFixed(v: Json, key: string, s: string)
    requires Get(v, key) == JStr(s) && CleanOrEmpty(s)
    ensures AsText(Get(v, key)) == s
  {
    CleanOrEmptyFixed(s, "");
  }

  lemma RequiredFieldFixed(v: Json, key: string, s: string, fallback: string)
    requires Get(v, key) == JStr(s) && IsClean(s)
    ensures AsString(Get(v, key), fallback) == s
  {
    AsStringClean(s, fallback);
  }

  lemma ListFieldFixed(v: Json, key: string, xs: seq<string>)
    requires Get(v, key) == EncodeStrings(xs) && NormalStrings(xs)
    ensures AsStringArray(Get(v, key)) == xs
  {
    AsStringArrayEncode(xs);
  }

  lemma UrlFieldFixed(v: Json, key: string, u: Option<string>)
    requires NormalUrl(u) && Get(v, key) == JStr(u.value)
    ensures Some(SafeUrl(Get(v, key))) == u
  {
    SafeUrlFixed(u);
  }

  lemma SkillFixed(c: SkillCategory)
    requires NormalCategory(c)
    ensures CoerceCategory(EncodeSkill(c)) == c
  {
    SkillFields(c);
    TextFieldFixed(EncodeSkill(c), "title", c.title);
    ListFieldFixed(EncodeSkill(c), "skills", c.skills);
  }

  lemma ProjectTextFields(v: Json, p: Project)
    requires IsClean(p.title)
    requires CleanOrEmpty(p.startMonth) && CleanOrEmpty(p.startYear) && CleanOrEmpty(p.endMonth) && CleanOrEmpty(p.endYear)
    requires && Get(v, "title") == JStr(p.title)
             && Get(v, "start_month") == JStr(p.startMonth) && Get(v, "start_year") == JStr(p.startYear)
             && Get(v, "end_month") == JStr(p.endMonth) && Get(v, "end_year") == JStr(p.endYear)
    ensures var r := NormalizeProject(v);
      && r.title == p.title
      && r.startMonth == p.startMonth && r.startYear == p.startYear && r.endMonth == p.endMonth && r.endYear == p.endYear
  {
    RequiredFieldFixed(v, "title", p.title, "Project");
    TextFieldFixed(v, "start_month", p.startMonth);
    TextFieldFixed(v, "start_year", p.startYear);
    TextFieldFixed(v, "end_month", p.endMonth);
    TextFieldFixed(v, "end_year", p.endYear);
  }

  lemma ProjectFixed(p: Project)
    requires NormalProject(p)
    ensures NormalizeProject(EncodeProject(p)) == p
  {
    var v := EncodeProject(p);
    ProjectFields(p);
    ProjectTextFields(v, p);
    UrlFieldFixed(v, "github_url", p.githubUrl);
    UrlFieldFixed(v, "live_url", p.liveUrl);
    ListFieldFixed(v, "tech_stack", p.techStack);
    ListFieldFixed(v, "bullets", p.bullets);
  }

  lemma ExperienceHeadFields(v: Json, e: WorkExperience)
    requires IsClean(e.role) && IsClean(e.company) && CleanOrEmpty(e.employmentType) && CleanOrEmpty(e.location)
    requires && Get(v, "role") == JStr(e.role) && Get(v, "company") == JStr(e.company)
             && Get(v, "employment_type") == JStr(e.employmentType) && Get(v, "location") == JStr(e.location)
    ensures var r := NormalizeExperience(v);
      r.role == e.role && r.company == e.company && r.employmentType == e.employmentType && r.location == e.location
  {
    RequiredFieldFixed(v, "role", e.role, "Role");
    RequiredFieldFixed(v, "company", e.company, "Company");
    TextFieldFixed(v, "employment_type", e.employmentType);
    TextFieldFixed(v, "location", e.location);
  }

  lemma ExperienceDateFields(v: Json, e: WorkExperience)
    requires CleanOrEmpty(e.startMonth) && CleanOrEmpty(e.startYear) && CleanOrEmpty(e.endMonth) && CleanOrEmpty(e.endYear)
    requires && Get(v, "start_month") == JStr(e.startMonth) && Get(v, "start_year") == JStr(e.startYear)
             && Get(v, "end_month") == JStr(e.endMonth) && Get(v, "end_year") == JStr(e.endYear)
    ensures var r := NormalizeExperience(v);
      r.startMonth == e.startMonth && r.startYear == e.startYear && r.endMonth == e.endMonth && r.endYear == e.endYear
  {
    TextFieldFixed(v, "start_month", e.startMonth);
    TextFieldFixed(v, "start_year", e.startYear);
    TextFieldFixed(v, "end_month", e.endMonth);
    TextFieldFixed(v, "end_year", e.endYear);
  }

  lemma ExperienceFromFields(v: Json, e: WorkExperience)
    requires NormalExperience(e)
    requires && Get(v, "role") == JStr(e.role) && Get(v, "company") == JStr(e.company)
             && Get(v, "employment_type") == JStr(e.employmentType) && Get(v, "location") == JStr(e.location)
             && Get(v, "start_month") == JStr(e.startMonth) && Get(v, "start_year") == JStr(e.startYear)
             && Get(v, "end_month") == JStr(e.endMonth) && Get(v, "end_year") == JStr(e.endYear)
             && Get(v, "bullets") == EncodeStrings(e.bullets)
    ensures NormalizeExperience(v) == e
  {
    ExperienceHeadFields(v, e);
    ExperienceDateFields(v, e);
    ListFieldFixed(v, "bullets", e.bullets);
  }

  lemma ExperienceFixed(e: WorkExperience)
    requires NormalExperience(e)
    ensures NormalizeExperience(EncodeExperience(e)) == e
  {
    ExperienceFields(e);
    ExperienceFromFields(EncodeExperience(e), e);
  }

  lemma EducationFixed(e: Education)
    requires NormalEducation(e)
    ensures NormalizeEducation(EncodeEducation(e)) == e
  {
    var v := EncodeEducation(e);
    EducationFields(e);
    RequiredFieldFixed(v, "institution", e.institution, "Institution");
    RequiredFieldFixed(v, "degree", e.degree, "Degree");
    TextFieldFixed(v, "start_year", e.startYear);
    TextFieldFixed(v, "end_year", e.endYear);
    ListFieldFixed(v, "coursework", e.coursework);
  }

  lemma SkillsFixed(cs: seq<SkillCategory>)
    requires forall k :: 0 <= k < |cs| ==> NormalCategory(cs[k])
    ensures NormalizeTechnicalSkills(EncodeSkills(cs)) == cs
  {
    var coerced := Map(Map(cs, EncodeSkill), CoerceCategory);
    forall k | 0 <= k < |cs| ensures coerced[k] == cs[k] {
      SkillFixed(cs[k]);
    }
    assert coerced == cs;
    FilterKeepsAll(cs, KeepCategory);
  }

  lemma SafeEmailFixed(e: string)
    requires IsClean(e) && IsEmail(e)
    ensures SafeEmail(JStr(e)) == e
  {
    AsStringClean(e, EmailFallback);
  }

  lemma NameFieldsFixed(v: Json, cv: CVData)
    requires IsClean(cv.fullName) && IsClean(cv.city) && IsClean(cv.country)
    requires && Get(v, "full_name") == JStr(cv.fullName) && Get(v, "city") == JStr(cv.city)
             && Get(v, "country") == JStr(cv.country)
    ensures AsString(Get(v, "full_name"), "Candidate Name") == cv.fullName
    ensures AsString(Get(v, "city"), "Dhaka") == cv.city
    ensures AsString(Get(v, "country"), "Bangladesh") == cv.country
  {
    RequiredFieldFixed(v, "full_name", cv.fullName, "Candidate Name");
    RequiredFieldFixed(v, "city", cv.city, "Dhaka");
    RequiredFieldFixed(v, "country", cv.country, "Bangladesh");
  }

  lemma ContactFieldsFixed(v: Json, cv: CVData)
    requires IsClean(cv.phone) && IsClean(cv.email) && IsEmail(cv.email)
    requires Get(v, "email") == JStr(cv.email) && Get(v, "phone") == JStr(cv.phone)
    ensures SafeEmail(Get(v, "email")) == cv.email && AsString(Get(v, "phone"), "N/A") == cv.phone
  {
    RequiredFieldFixed(v, "phone", cv.phone, "N/A");
    SafeEmailFixed(cv.email);
  }

  lemma UrlFieldsFixed(v: Json, cv: CVData)
    requires NormalUrl(cv.portfolioUrl) && NormalUrl(cv.linkedinUrl) && NormalUrl(cv.githubUrl)
    requires && Get(v, "portfolio_url") == JStr(cv.portfolioUrl.value)
             && Get(v, "linkedin_url") == JStr(cv.linkedinUrl.value)
             && Get(v, "github_url") == JStr(cv.githubUrl.value)
    ensures Some(SafeUrl(Get(v, "portfolio_url"))) == cv.portfolioUrl
    ensures Some(SafeUrl(Get(v, "linkedin_url"))) == cv.linkedinUrl
    ensures Some(SafeUrl(Get(v, "github_url"))) == cv.githubUrl
  {
    UrlFieldFixed(v, "portfolio_url", cv.portfolioUrl);
    UrlFieldFixed(v, "linkedin_url", cv.linkedinUrl);
    UrlFieldFixed(v, "github_url", cv.githubUrl);
  }

  lemma ProjectsFixed(ps: seq<Project>)
    requires forall k :: 0 <= k < |ps| ==> NormalProject(ps[k])
    ensures MapArray(JArr(Map(ps, EncodeProject)), NormalizeProject) == ps
  {
    forall k | 0 <= k < |ps| ensures NormalizeProject(EncodeProject(ps[k])) == ps[k] {
      ProjectFixed(ps[k]);
    }
  }

  lemma ExperiencesFixed(es: seq<WorkExperience>)
    requires forall k :: 0 <= k < |es| ==> NormalExperience(es[k])
    ensures MapArray(JArr(Map(es, EncodeExperience)), NormalizeExperience) == es
  {
    forall k | 0 <= k < |es| ensures NormalizeExperience(EncodeExperience(es[k])) == es[k] {
      ExperienceFixed(es[k]);
    }
  }

  lemma EducationsFixed(es: seq<Education>)
    requires forall k :: 0 <= k < |es| ==> NormalEducation(es[k])
    ensures MapArray(JArr(Map(es, EncodeEducation)), NormalizeEducation) == es
  {
    forall k | 0 <= k < |es| ensures NormalizeEducation(EncodeEducation(es[k])) == es[k] {
      EducationFixed(es[k]);
    }
  }

  lemma ListFieldsFixed(v: Json, cv: CVData)
    requires NormalCV(cv)
    requires && Get(v, "technical_skills") == EncodeSkills(cv.technicalSkills)
             && Get(v, "projects") == JArr(Map(cv.projects, EncodeProject))
             && Get(v, "work_experience") == JArr(Map(cv.workExperience, EncodeExperience))
             && Get(v, "education") == JArr(Map(cv.education, EncodeEducation))
    ensures NormalizeTechnicalSkills(Get(v, "technical_skills")) == cv.technicalSkills
    ensures MapArray(Get(v, "projects"), NormalizeProject) == cv.projects
    ensures MapArray(Get(v, "work_experience"), NormalizeExperience) == cv.workExperience
    ensures MapArray(Get(v, "education"), NormalizeEducation) == cv.education
  {
    SkillsFixed(cv.technicalSkills);
    ProjectsFixed(cv.projects);
    ExperiencesFixed(cv.workExperience);
    EducationsFixed(cv.education);
  }

  /** A normal document is left exactly as it is by the normaliser. */
  lemma NormalizeFixed(cv: CVData)
    requires NormalCV(cv)
    ensures NormalizeCVData(Encode(cv)) == cv
  {
    var v := Encode(cv);
    EncodeScalarFields(cv);
    UrlFields(cv);
    EncodeListFields(cv);
    NameFieldsFixed(v, cv);
    ContactFieldsFixed(v, cv);
    UrlFieldsFixed(v, cv);
    ListFieldsFixed(v, cv);
  }

  /** Normalising an already normalised document changes nothing. */
  lemma NormalizeIdempotent(raw: Json)
    ensures NormalizeCVData(Encode(NormalizeCVData(raw))) == NormalizeCVData(raw)
  {
    NormalizeFixed(NormalizeCVData(raw));
  }

  /** The normaliser's outputs are exactly the normal documents. */
  lemma NormalizeImage(cv: CVData)
    ensures (exists raw :: NormalizeCVData(raw) == cv) <==> NormalCV(cv)
  {
    if NormalCV(cv) {
      NormalizeFixed(cv);
    }
  }
}
