/**
 * CVDataSchema (frontend/lib/validators.ts), the one validator shared by the manual form and
 * the AI path. zod's parse is split in two: Decode checks the types (strings, arrays, objects,
 * an optional key either absent or a string) and builds the record; Valid checks the rules
 * (minimum lengths, e-mail and URL syntax). Accepts is their conjunction, i.e. `safeParse(v).success`.
 */
module Validators {
  import opened Wrappers
  import opened Strings
  import opened Seqs
  import opened JsonValue
  import opened CvTypes

  // ---------------------------------------------------------------------------------------
  // E-mail syntax: zod's `z.string().email()` pattern
  //   ^(?!\.)(?!.*\.\.)([A-Z0-9_'+\-\.]*)[A-Z0-9_+-]@([A-Z0-9][A-Z0-9\-]*\.)+[A-Z]{2,}$  (case-insensitive)
  // ---------------------------------------------------------------------------------------

  predicate IsAsciiLetter(c: char) {
    'a' <= c <= 'z' || 'A' <= c <= 'Z'
  }

  predicate IsAsciiAlnum(c: char) {
    IsAsciiLetter(c) || IsDigit(c)
  }

  predicate IsLocalChar(c: char) {
    IsAsciiAlnum(c) || c == '_' || c == '\'' || c == '+' || c == '-' || c == '.'
  }

  predicate IsLocalLastChar(c: char) {
    IsAsciiAlnum(c) || c == '_' || c == '+' || c == '-'
  }

  predicate IsLocalPart(s: string) {
    && s != []
    && s[0] != '.'
    && IsLocalLastChar(s[|s| - 1])
    && forall i :: 0 <= i < |s| ==> IsLocalChar(s[i])
  }

  predicate IsDomainLabel(s: string) {
    s != [] && IsAsciiAlnum(s[0]) && forall i :: 0 <= i < |s| ==> IsAsciiAlnum(s[i]) || s[i] == '-'
  }

  predicate IsTopLevelLabel(s: string) {
    |s| >= 2 && forall i :: 0 <= i < |s| ==> IsAsciiLetter(s[i])
  }

  /** One or more labels each followed by ".", then a top-level label of two or more letters. */
  predicate IsDomain(s: string) {
    var labels := Split(s, '.');
    && |labels| >= 2
    && IsTopLevelLabel(labels[|labels| - 1])
    && forall k :: 0 <= k < |labels| - 1 ==> IsDomainLabel(labels[k])
  }

  predicate HasDoubleDot(s: string)
    decreases |s|
  {
    |s| >= 2 && ((s[0] == '.' && s[1] == '.') || HasDoubleDot(s[1..]))
  }

  /** Neither part may hold "@", so the first "@" is where the local part ends. */
  predicate IsEmail(s: string) {
    && !HasDoubleDot(s)
    && match IndexOf(s, '@')
       case None => false
       case Some(i) => IsLocalPart(s[..i]) && IsDomain(s[i + 1..])
  }

  // ---------------------------------------------------------------------------------------
  // URL syntax: what `new URL(s)` accepts with no base URL (zod's `.url()` calls it too).
  // A simplified reading of the URL parser: a scheme, a colon and, for the special schemes
  // that need a host, a non-empty host.
  // ---------------------------------------------------------------------------------------

  predicate IsSchemeChar(c: char) {
    IsAsciiAlnum(c) || c == '+' || c == '-' || c == '.'
  }

  predicate IsScheme(s: string) {
    s != [] && IsAsciiLetter(s[0]) && forall i :: 0 <= i < |s| ==> IsSchemeChar(s[i])
  }

  const HostSchemes: set<string> := {"http", "https", "ws", "wss", "ftp"}

  function DropSlashes(s: string): (r: string)
    ensures |r| <= |s|
  {
    if s != [] && (s[0] == '/' || s[0] == '\\') then DropSlashes(s[1..]) else s
  }

  /** The text before the first "/", "\", "?" or "#". */
  function Authority(s: string): (r: string)
    ensures |r| <= |s|
  {
    if s == [] || s[0] in "/\\?#" then [] else [s[0]] + Authority(s[1..])
  }

  predicate IsHost(h: string) {
    h != [] && forall i :: 0 <= i < |h| ==> !IsSpace(h[i]) && h[i] !in "<>^|"
  }

  predicate IsUrl(s: string)
    ensures IsUrl(s) ==> ':' in s && IsAsciiLetter(s[0])
  {
    match IndexOf(s, ':')
    case None => false
    case Some(i) =>
      && IsScheme(s[..i])
      && (ToLower(s[..i]) in HostSchemes ==> IsHost(Authority(DropSlashes(s[i + 1..]))))
  }

  // ---------------------------------------------------------------------------------------
  // Type shape
  // ---------------------------------------------------------------------------------------

  /** z.string() */
  function DecodeString(v: Json): Option<string> {
    if v.JStr? then Some(v.s) else None
  }

  /** z.array(z.string()) */
  function DecodeStrings(v: Json): Option<seq<string>> {
    if v.JArr? && forall k :: 0 <= k < |v.items| ==> v.items[k].JStr?
    then Some(seq(|v.items|, k requires 0 <= k < |v.items| => v.items[k].s))
    else None
  }

  /** z.string().optional() read from an object: an absent key is None, a string is Some. */
  function DecodeOptional(v: Json, key: string): Option<Option<string>> {
    if v.JObj? && key !in v.fields then Some(None)
    else
      var s :- DecodeString(Get(v, key));
      Some(Some(s))
  }

  /** z.array(element) */
  function DecodeList<T>(items: seq<Json>, element: Json -> Option<T>): (r: Option<seq<T>>)
    ensures r.Some? ==> |r.value| == |items|
  {
    if items == [] then Some([])
    else
      var x :- element(items[0]);
      var xs :- DecodeList(items[1..], element);
      Some([x] + xs)
  }

  function DecodeArray<T>(v: Json, element: Json -> Option<T>): Option<seq<T>> {
    if v.JArr? then DecodeList(v.items, element) else None
  }

  function DecodeSkill(v: Json): Option<SkillCategory> {
    if !v.JObj? then None
    else
      var title :- DecodeString(Get(v, "title"));
      var skills :- DecodeStrings(Get(v, "skills"));
      Some(SkillCategory(title, skills))
  }

  function DecodeProject(v: Json): Option<Project> {
    if !v.JObj? then None
    else
      var title :- DecodeString(Get(v, "title"));
      var startMonth :- DecodeString(Get(v, "start_month"));
      var startYear :- DecodeString(Get(v, "start_year"));
      var endMonth :- DecodeString(Get(v, "end_month"));
      var endYear :- DecodeString(Get(v, "end_year"));
      var githubUrl :- DecodeOptional(v, "github_url");
      var liveUrl :- DecodeOptional(v, "live_url");
      var techStack :- DecodeStrings(Get(v, "tech_stack"));
      var bullets :- DecodeStrings(Get(v, "bullets"));
      Some(Project(title, startMonth, startYear, endMonth, endYear, githubUrl, liveUrl, techStack, bullets))
  }

  function DecodeExperience(v: Json): Option<WorkExperience> {
    if !v.JObj? then None
    else
      var role :- DecodeString(Get(v, "role"));
      var company :- DecodeString(Get(v, "company"));
      var employmentType :- DecodeString(Get(v, "employment_type"));
      var location :- DecodeString(Get(v, "location"));
      var startMonth :- DecodeString(Get(v, "start_month"));
      var startYear :- DecodeString(Get(v, "start_year"));
      var endMonth :- DecodeString(Get(v, "end_month"));
      var endYear :- DecodeString(Get(v, "end_year"));
      var bullets :- DecodeStrings(Get(v, "bullets"));
      Some(WorkExperience(role, company, employmentType, location, startMonth, startYear, endMonth, endYear, bullets))
  }

  function DecodeEducation(v: Json): Option<Education> {
    if !v.JObj? then None
    else
      var institution :- DecodeString(Get(v, "institution"));
      var degree :- DecodeString(Get(v, "degree"));
      var startYear :- DecodeString(Get(v, "start_year"));
      var endYear :- DecodeString(Get(v, "end_year"));
      var coursework :- DecodeStrings(Get(v, "coursework"));
      Some(Education(institution, degree, startYear, endYear, coursework))
  }

  /** The type checks of CVDataSchema; unknown keys are ignored, as z.object does. */
  function Decode(v: Json): Option<CVData> {
    if !v.JObj? then None
    else
      var fullName :- DecodeString(Get(v, "full_name"));
      var city :- DecodeString(Get(v, "city"));
      var country :- DecodeString(Get(v, "country"));
      var email :- DecodeString(Get(v, "email"));
      var phone :- DecodeString(Get(v, "phone"));
      var portfolioUrl :- DecodeOptional(v, "portfolio_url");
      var linkedinUrl :- DecodeOptional(v, "linkedin_url");
      var githubUrl :- DecodeOptional(v, "github_url");
      var skills :- DecodeArray(Get(v, "technical_skills"), DecodeSkill);
      var projects :- DecodeArray(Get(v, "projects"), DecodeProject);
      var experience :- DecodeArray(Get(v, "work_experience"), DecodeExperience);
      var education :- DecodeArray(Get(v, "education"), DecodeEducation);
      Some(CVData(fullName, city, country, email, phone, portfolioUrl, linkedinUrl, githubUrl,
                  skills, projects, experience, education))
  }

  // ---------------------------------------------------------------------------------------
  // Rules
  // ---------------------------------------------------------------------------------------

  /** `z.string().url().optional().or(z.literal(""))` on a field already known to be a string or absent. */
  predicate UrlOrEmpty(u: Option<string>) {
    u.None? || u.value == "" || IsUrl(u.value)
  }

  predicate ValidProject(p: Project) {
    |p.title| >= 1 && UrlOrEmpty(p.githubUrl) && UrlOrEmpty(p.liveUrl)
  }

  predicate ValidExperience(e: WorkExperience) {
    |e.role| >= 1 && |e.company| >= 1
  }

  predicate ValidEducation(e: Education) {
    |e.institution| >= 1 && |e.degree| >= 1
  }

  /** The rules of CVDataSchema. Titles of skill categories, dates, employment type and location are free text. */
  predicate Valid(cv: CVData)
    ensures Valid(cv) ==> '@' in cv.email && cv.fullName != "" && cv.phone != ""
    ensures Valid(cv) && cv.portfolioUrl.Some? && cv.portfolioUrl.value != "" ==> ':' in cv.portfolioUrl.value
    ensures Valid(cv) ==> forall k :: 0 <= k < |cv.projects| ==> cv.projects[k].title != ""
  {
    && |cv.fullName| >= 1 && |cv.city| >= 1 && |cv.country| >= 1 && |cv.phone| >= 1
    && IsEmail(cv.email)
    && UrlOrEmpty(cv.portfolioUrl) && UrlOrEmpty(cv.linkedinUrl) && UrlOrEmpty(cv.githubUrl)
    && (forall k :: 0 <= k < |cv.projects| ==> ValidProject(cv.projects[k]))
    && (forall k :: 0 <= k < |cv.workExperience| ==> ValidExperience(cv.workExperience[k]))
    && (forall k :: 0 <= k < |cv.education| ==> ValidEducation(cv.education[k]))
  }

  /** `CVDataSchema.safeParse(v).success` */
  predicate Accepts(v: Json) {
    var d := Decode(v);
    d.Some? && Valid(d.value)
  }

  // ---------------------------------------------------------------------------------------
  // Facts used to evaluate the syntax predicates on fixed strings
  // ---------------------------------------------------------------------------------------

  lemma {:induction false} NoDotNoDoubleDot(s: string)
    requires '.' !in s
    ensures !HasDoubleDot(s)
    decreases |s|
  {
    if |s| >= 2 {
      NoDotNoDoubleDot(s[1..]);
    }
  }

  lemma {:induction false} DoubleDotConcat(a: string, b: string)
    requires !HasDoubleDot(a) && !HasDoubleDot(b)
    requires a == [] || b == [] || a[|a| - 1] != '.' || b[0] != '.'
    ensures !HasDoubleDot(a + b)
    decreases |a|
  {
    if a == [] {
      assert a + b == b;
    } else {
      DoubleDotConcat(a[1..], b);
      assert (a + b)[1..] == a[1..] + b;
      if |a| == 1 && b != [] {
        assert (a + b)[1] == b[0];
      } else if |a| > 1 {
        assert (a + b)[1] == a[1];
      }
    }
  }

  lemma {:induction false} AuthorityWhole(s: string)
    requires '/' !in s && '\\' !in s && '?' !in s && '#' !in s
    ensures Authority(s) == s
  {
    if s != [] {
      AuthorityWhole(s[1..]);
      assert s == [s[0]] + s[1..];
    }
  }

  /** A string without a colon has no scheme, so it is not a URL (e.g. "not a url"). */
  lemma NoColonNoUrl(s: string)
    requires ':' !in s
    ensures !IsUrl(s)
  {
  }

  lemma DomainOfParts(name: string, tld: string)
    requires IsDomainLabel(name) && IsTopLevelLabel(tld)
    ensures Split(name + "." + tld, '.') == [name, tld]
  {
    var d := name + "." + tld;
    assert '.' !in name by {
      forall k | 0 <= k < |name| ensures name[k] != '.' { assert IsAsciiAlnum(name[k]) || name[k] == '-'; }
    }
    assert d[..|name|] == name;
    IndexOfAt(d, '.', |name|);
    assert d[|name| + 1..] == tld;
    assert '.' !in tld by {
      forall k | 0 <= k < |tld| ensures tld[k] != '.' { assert IsAsciiLetter(tld[k]); }
    }
  }

  lemma NoDotInParts(local: string, name: string, tld: string)
    requires IsDomainLabel(name) && IsTopLevelLabel(tld)
    ensures '.' !in name && '.' !in tld
  {
    assert '.' !in name by {
      forall k | 0 <= k < |name| ensures name[k] != '.' { assert IsAsciiAlnum(name[k]) || name[k] == '-'; }
    }
    assert '.' !in tld by {
      forall k | 0 <= k < |tld| ensures tld[k] != '.' { assert IsAsciiLetter(tld[k]); }
    }
  }

  lemma PartsNoDoubleDot(local: string, name: string, tld: string)
    requires '.' !in local && '.' !in name && '.' !in tld && tld != []
    ensures !HasDoubleDot(local + "@" + name + "." + tld)
  {
    var a := local + "@" + name;
    assert '.' !in a;
    NoDotNoDoubleDot(a);
    NoDotNoDoubleDot(tld);
    DoubleDotConcat(a, ".");
    DoubleDotConcat(a + ".", tld);
  }

  lemma DomainOfLabels(name: string, tld: string)
    requires IsDomainLabel(name) && IsTopLevelLabel(tld)
    ensures IsDomain(name + "." + tld)
  {
    DomainOfParts(name, tld);
  }

  lemma LocalPartNoAt(local: string)
    requires IsLocalPart(local)
    ensures '@' !in local
  {
    forall k | 0 <= k < |local| ensures local[k] != '@' { assert IsLocalChar(local[k]); }
  }

  lemma EmailAt(s: string, i: nat)
    requires i < |s| && IndexOf(s, '@') == Some(i) && !HasDoubleDot(s)
    requires IsLocalPart(s[..i]) && IsDomain(s[i + 1..])
    ensures IsEmail(s)
  {
  }

  /** `local@name.tld` is an e-mail address whenever its three parts are well formed. */
  lemma EmailOfParts(local: string, name: string, tld: string)
    requires IsLocalPart(local) && '.' !in local
    requires IsDomainLabel(name) && IsTopLevelLabel(tld)
    ensures IsEmail(local + "@" + name + "." + tld)
  {
    var d := name + "." + tld;
    var s := local + "@" + d;
    assert s == local + "@" + name + "." + tld;
    LocalPartNoAt(local);
    assert s[..|local|] == local;
    IndexOfAt(s, '@', |local|);
    assert s[|local| + 1..] == d;
    DomainOfLabels(name, tld);
    NoDotInParts(local, name, tld);
    PartsNoDoubleDot(local, name, tld);
    EmailAt(s, |local|);
  }

  /** A scheme, "://" and a plain host make a URL, whatever the scheme. */
  lemma SchemeHostIsUrl(scheme: string, host: string)
    requires IsScheme(scheme) && IsHost(host)
    requires '/' !in host && '\\' !in host && '?' !in host && '#' !in host
    ensures IsUrl(scheme + "://" + host)
  {
    var s := scheme + "://" + host;
    var i := |scheme|;
    assert ':' !in scheme by {
      forall k | 0 <= k < |scheme| ensures scheme[k] != ':' {
        assert IsSchemeChar(scheme[k]);
      }
    }
    assert s[..i] == scheme;
    IndexOfAt(s, ':', i);
    assert s[i + 1..] == "//" + host;
    assert DropSlashes("//" + host) == DropSlashes(("//" + host)[1..]);
    assert ("//" + host)[1..] == "/" + host;
    assert ("/" + host)[1..] == host;
    if host != [] {
      assert ("/" + host)[0] == '/';
    }
    assert host == [] || (host[0] != '/' && host[0] != '\\');
    assert DropSlashes(host) == host;
    AuthorityWhole(host);
  }

  lemma ExampleUrlParts()
    ensures IsScheme("https") && IsHost("example.com")
    ensures '/' !in "example.com" && '\\' !in "example.com" && '?' !in "example.com" && '#' !in "example.com"
  {
  }

  lemma ExampleUrlSpelling()
    ensures "https://example.com" == "https" + "://" + "example.com"
  {
  }

  /** "https://example.com" is a URL: the rule accepts the ordinary case. */
  lemma HttpsExampleIsUrl()
    ensures IsUrl("https://example.com")
  {
    ExampleUrlParts();
    SchemeHostIsUrl("https", "example.com");
    ExampleUrlSpelling();
  }

  // ---------------------------------------------------------------------------------------
  // Decode is the inverse of Encode
  // ---------------------------------------------------------------------------------------

  lemma DecodeStringsEncode(xs: seq<string>)
    ensures DecodeStrings(EncodeStrings(xs)) == Some(xs)
  {
    var v := EncodeStrings(xs);
    assert forall k :: 0 <= k < |v.items| ==> v.items[k] == JStr(xs[k]);
    assert seq(|v.items|, k requires 0 <= k < |v.items| => v.items[k].s) == xs;
  }

  lemma {:induction false} DecodeListMap<T>(xs: seq<T>, enc: T -> Json, dec: Json -> Option<T>)
    requires forall k :: 0 <= k < |xs| ==> dec(enc(xs[k])) == Some(xs[k])
    ensures DecodeList(Map(xs, enc), dec) == Some(xs)
  {
    if xs != [] {
      assert Map(xs, enc)[1..] == Map(xs[1..], enc);
      DecodeListMap(xs[1..], enc, dec);
      assert [xs[0]] + xs[1..] == xs;
    }
  }

  lemma DecodeSkillEncode(c: SkillCategory)
    ensures DecodeSkill(EncodeSkill(c)) == Some(c)
  {
    DecodeStringsEncode(c.skills);
  }

  lemma DecodeProjectEncode(p: Project)
    ensures DecodeProject(EncodeProject(p)) == Some(p)
  {
    ProjectFields(p);
    DecodeStringsEncode(p.techStack);
    DecodeStringsEncode(p.bullets);
  }

  lemma DecodeExperienceEncode(e: WorkExperience)
    ensures DecodeExperience(EncodeExperience(e)) == Some(e)
  {
    ExperienceFields(e);
    DecodeStringsEncode(e.bullets);
  }

  lemma DecodeEducationEncode(e: Education)
    ensures DecodeEducation(EncodeEducation(e)) == Some(e)
  {
    DecodeStringsEncode(e.coursework);
  }

  lemma EncodeNameFields(cv: CVData)
    ensures var v := Encode(cv);
      && Get(v, "full_name") == JStr(cv.fullName) && Get(v, "city") == JStr(cv.city)
      && Get(v, "country") == JStr(cv.country)
  {
  }

  lemma EncodeContactFields(cv: CVData)
    ensures var v := Encode(cv);
      && Get(v, "email") == JStr(cv.email) && Get(v, "phone") == JStr(cv.phone)
  {
  }

  lemma EncodeScalarFields(cv: CVData)
    ensures var v := Encode(cv);
      && Get(v, "full_name") == JStr(cv.fullName) && Get(v, "city") == JStr(cv.city)
      && Get(v, "country") == JStr(cv.country) && Get(v, "email") == JStr(cv.email)
      && Get(v, "phone") == JStr(cv.phone)
  {
    EncodeNameFields(cv);
    EncodeContactFields(cv);
  }

  lemma EncodeOptionalFields(cv: CVData)
    ensures var v := Encode(cv);
      && DecodeOptional(v, "portfolio_url") == Some(cv.portfolioUrl)
      && DecodeOptional(v, "linkedin_url") == Some(cv.linkedinUrl)
      && DecodeOptional(v, "github_url") == Some(cv.githubUrl)
  {
  }

  lemma EncodeListFields(cv: CVData)
    ensures var v := Encode(cv);
      && Get(v, "technical_skills") == EncodeSkills(cv.technicalSkills)
      && Get(v, "projects") == JArr(Map(cv.projects, EncodeProject))
      && Get(v, "work_experience") == JArr(Map(cv.workExperience, EncodeExperience))
      && Get(v, "education") == JArr(Map(cv.education, EncodeEducation))
  {
  }

  /** Every record survives the trip through its object form: the schema reads back exactly the record. */
  lemma DecodeEncode(cv: CVData)
    ensures Decode(Encode(cv)) == Some(cv)
  {
    EncodeScalarFields(cv);
    EncodeOptionalFields(cv);
    EncodeListFields(cv);
    forall k | 0 <= k < |cv.technicalSkills| ensures DecodeSkill(EncodeSkill(cv.technicalSkills[k])) == Some(cv.technicalSkills[k]) {
      DecodeSkillEncode(cv.technicalSkills[k]);
    }
    DecodeListMap(cv.technicalSkills, EncodeSkill, DecodeSkill);
    forall k | 0 <= k < |cv.projects| ensures DecodeProject(EncodeProject(cv.projects[k])) == Some(cv.projects[k]) {
      DecodeProjectEncode(cv.projects[k]);
    }
    DecodeListMap(cv.projects, EncodeProject, DecodeProject);
    forall k | 0 <= k < |cv.workExperience|
      ensures DecodeExperience(EncodeExperience(cv.workExperience[k])) == Some(cv.workExperience[k])
    {
      DecodeExperienceEncode(cv.workExperience[k]);
    }
    DecodeListMap(cv.workExperience, EncodeExperience, DecodeExperience);
    forall k | 0 <= k < |cv.education| ensures DecodeEducation(EncodeEducation(cv.education[k])) == Some(cv.education[k]) {
      DecodeEducationEncode(cv.education[k]);
    }
    DecodeListMap(cv.education, EncodeEducation, DecodeEducation);
  }

  /** On the object form of a record, the schema accepts exactly the records that satisfy the rules. */
  lemma AcceptsEncodeIffValid(cv: CVData)
    ensures Accepts(Encode(cv)) <==> Valid(cv)
  {
    DecodeEncode(cv);
  }
}
