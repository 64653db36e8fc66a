/**
 * The blank document the resume form starts from and merges stored drafts over
 * (frontend/lib/cv-defaults.ts).
 */
module CvDefaults {
  import opened Wrappers
  import opened Strings
  import opened JsonValue
  import opened CvTypes
  import opened Validators

  /** `createEmptyCV()`: every text field "", the three link fields present and "", every list empty. */
  function EmptyCV(): CVData {
    CVData("", "", "", "", "", Some(""), Some(""), Some(""), [], [], [], [])
  }

  /** The blank document as the object the form spreads: all twelve keys present. */
  function EmptyCVObject(): (m: map<string, Json>)
    ensures Encode(EmptyCV()) == JObj(m)
  {
    Encode(EmptyCV()).fields
  }

  /** The empty links are allowed by the schema's URL-or-empty rule, and every list starts empty, so no list rule applies. */
  lemma EmptyCVLinksAndListsPass()
    ensures var cv := EmptyCV();
      && UrlOrEmpty(cv.portfolioUrl) && UrlOrEmpty(cv.linkedinUrl) && UrlOrEmpty(cv.githubUrl)
      && cv.technicalSkills == [] && cv.projects == [] && cv.workExperience == [] && cv.education == []
  {
  }

  /** "" has no "@", so it is not an e-mail address. */
  lemma EmptyIsNotEmail()
    ensures !IsEmail("")
  {
    assert IndexOf("", '@') == None;
  }

  /**
   * The blank document is well typed but rejected by CVDataSchema: the name, city, country
   * and phone are shorter than one character and the e-mail is not an address.
   */
  lemma EmptyCVRejected()
    ensures Decode(Encode(EmptyCV())) == Some(EmptyCV())
    ensures var cv := EmptyCV();
      && |cv.fullName| < 1 && |cv.city| < 1 && |cv.country| < 1 && |cv.phone| < 1 && !IsEmail(cv.email)
    ensures !Valid(EmptyCV()) && !Accepts(Encode(EmptyCV()))
  {
    DecodeEncode(EmptyCV());
    EmptyIsNotEmail();
  }
}
