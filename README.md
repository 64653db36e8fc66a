# AI CV maker: the resume data pipeline in Dafny

AI CV maker is a resume builder. A user fills in a resume in a tabbed form, or describes themselves
to a scripted chat assistant, and can ask a language model to edit the document. Drafts are kept in
the browser's local storage, and a small Python service keeps a JSON file of drafts as well.

This project models the data pipeline behind those features and proves its properties:

- **The resume document** (`CvTypes`). It has the same fields and the same JSON encoding as the
  frontend's `CVData`.
- **The shared schema** (`Validators`). `CVDataSchema` is split into a type decoder (`Decode`) and
  the field rules (`Valid`). `Accepts` is their conjunction.
- **The blank document** (`CvDefaults`). This is what the form starts from.
- **The AI chat route**:
  - `ModelReply` finds the JSON in the model's reply and unwraps a function-call envelope.
  - `ChatNormalize` coerces every field of the payload.
  - `ChatRoute` is POST itself, with its 400 and 500 answers.
- **Draft storage**, as mutable stores:
  - `DraftsStorage.DraftStore` is the browser's list, with newest drafts first.
  - `DraftService.DraftStore` is the service's JSON file, with new drafts appended.
- **The builder page** (`Builder`):
  - the form's own skills normaliser and the merge over the blank document;
  - per-tab completion and the auto-advance to the next incomplete tab;
  - the autosave title;
  - the comma and newline list fields.
- **The AI chat page** (`AiChat`):
  - the keyword coverage meter and the scripted reply;
  - session titles;
  - sessions, as a mutable page state;
  - the prompt and the title used when a chat is opened in the editor.

The central results are these:

- Whatever the model returns, the route's normalised document passes the schema
  (`ChatNormalize.NormalizedIsValid`). So the route's "invalid assistant JSON shape" answer can never
  be given (`ChatRoute.HandleChatOutcomes`).
- Normalisation is idempotent, and its image is exactly the set of normal documents
  (`ChatNormalize.NormalizeIdempotent`, `ChatNormalize.NormalizeImage`).
- Schema acceptance of an encoded document is exactly `Valid` (`Validators.AcceptsEncodeIffValid`).
- Both draft stores find what they saved, keep the other drafts, and lose only the deleted id.
- The builder loads a route reply into the form unchanged (`Builder.RouteReplyLoadsUnchanged`).

JSON values are the `Json` datatype (`JsonValue`). A missing key and `null` both read as `JNull`
through `Get`, as JavaScript's `?.` and `??` treat them alike.

## Model

| member | source | states |
|---|---|---|
| CvDefaults.EmptyCVObject | frontend/lib/cv-defaults.ts:3-16 | the blank document's object is the JSON encoding of the empty record: every text "", the three links "", every list empty |
| CvDefaults.EmptyCVLinksAndListsPass | frontend/lib/cv-defaults.ts:3-16 | the blank document's links satisfy the URL-or-empty rule, and all four lists are empty |
| CvDefaults.EmptyCVRejected | frontend/lib/validators.ts:3-8 | the blank document decodes to itself but the schema rejects it: the name, city, country and phone are shorter than one character, and "" is not an e-mail |
| Validators.DecodeEncode | frontend/lib/validators.ts:3-47 | decoding the JSON encoding of any document gives back that document, so the type check of the schema never rejects an encoded record |
| Validators.AcceptsEncodeIffValid | frontend/lib/validators.ts:3-47 | the schema accepts an encoded document if and only if the field rules hold: minimum lengths, e-mail syntax, URL-or-empty links, and non-empty titles, roles, companies, institutions and degrees |
| Validators.DecodeProjectEncode | frontend/lib/validators.ts:18-28 | a project's encoding decodes back to it, optional links included |
| Validators.DecodeExperienceEncode | frontend/lib/validators.ts:29-39 | a work-experience entry's encoding decodes back to it |
| Validators.DecodeEducationEncode | frontend/lib/validators.ts:40-46 | an education entry's encoding decodes back to it |
| Validators.DecodeSkillEncode | frontend/lib/validators.ts:12-17 | a skill category's encoding decodes back to it |
| Validators.EmailOfParts | frontend/lib/validators.ts:7 | local@label.tld is an e-mail address for every local part without dots and every domain label and alphabetic top-level label |
| Validators.HttpsExampleIsUrl | frontend/lib/validators.ts:9-11 | "https://example.com" is a URL |
| Validators.NoColonNoUrl | frontend/lib/validators.ts:9-11 | a string without ":" is never a URL, because a URL needs a scheme |
| Validators.IsUrl | frontend/lib/validators.ts:9-11 | a URL contains ":" and starts with an ASCII letter |
| Validators.Valid | frontend/lib/validators.ts:3-47 | a valid document has an "@" in its e-mail, a name and a phone, a ":" in a non-empty portfolio link, and a title on every project |
| ChatNormalize.AsString | frontend/app/api/ai/chat/route.ts:81-91 | a non-primitive value, or one whose text trims to "", gives the fallback; a string, number or boolean whose trimmed text is non-empty gives that trimmed text, which is clean |
| ChatNormalize.AsStringClean | frontend/app/api/ai/chat/route.ts:81-91 | a clean string is kept as it is |
| ChatNormalize.AsStringBlank | frontend/app/api/ai/chat/route.ts:81-91 | a blank string is replaced by the fallback |
| ChatNormalize.SafeEmail | frontend/app/api/ai/chat/route.ts:93-97 | the result is always a clean e-mail address; the coerced candidate is kept exactly when it is an e-mail address, and otherwise the placeholder is used |
| ChatNormalize.PlaceholderIsEmail | frontend/app/api/ai/chat/route.ts:93-97 | the placeholder "candidate@example.com" passes the e-mail rule |
| ChatNormalize.AsStringArray | frontend/app/api/ai/chat/route.ts:99-102 | the result holds clean strings only, in order, drawn from the coerced items; a non-array gives [] |
| ChatNormalize.AsStringArrayKeeps | frontend/app/api/ai/chat/route.ts:99-102 | every item whose coerced text is non-empty is in the result, and the result has exactly as many entries as there are such items, so duplicates are kept |
| ChatNormalize.AsStringArrayEncode | frontend/app/api/ai/chat/route.ts:99-102 | a list of clean strings survives encode-then-coerce unchanged |
| ChatNormalize.SafeUrl | frontend/app/api/ai/chat/route.ts:104-113 | the result is "" or a clean URL; the coerced candidate is kept exactly when it is a URL, and otherwise the result is "" |
| ChatNormalize.NormalizeTechnicalSkills | frontend/app/api/ai/chat/route.ts:115-142 | every category has a clean title and clean skills; an array gives at most one category per item; an object gives at most the four legacy buckets, none empty; anything else gives [] |
| ChatNormalize.ArrayCategoryKept | frontend/app/api/ai/chat/route.ts:116-123 | an array item's coerced category is in the result if and only if it has a non-empty title or a skill |
| ChatNormalize.ArrayOrder | frontend/app/api/ai/chat/route.ts:116-123 | the array branch keeps the coerced categories in their input order, exactly as many as pass the title-or-skills test |
| ChatNormalize.LegacyBucketKept | frontend/app/api/ai/chat/route.ts:125-139 | a legacy bucket is kept exactly when its coerced skill list is non-empty |
| ChatNormalize.LegacyOrder | frontend/app/api/ai/chat/route.ts:125-139 | the legacy categories come out in the fixed bucket order, exactly as many as there are buckets with a skill |
| ChatNormalize.NormalizeProject | frontend/app/api/ai/chat/route.ts:154-166 | a coerced project is normal; its title is the `title` field coerced with default "Project", each date the field's text, each link the field's safe URL, each list the field's string array |
| ChatNormalize.NormalizeExperience | frontend/app/api/ai/chat/route.ts:167-179 | a coerced work-experience entry is normal; role and company are their fields coerced with defaults "Role" and "Company", the other texts their fields' text, the bullets the field's string array |
| ChatNormalize.NormalizeEducation | frontend/app/api/ai/chat/route.ts:180-188 | a coerced education entry is normal; institution and degree are their fields coerced with defaults "Institution" and "Degree", the years their fields' text, the coursework the field's string array |
| ChatNormalize.NormalizedEntryDefaults | frontend/app/api/ai/chat/route.ts:156-183 | a missing, non-primitive or blank project title, role, company, institution or degree gives "Project", "Role", "Company", "Institution" or "Degree" |
| ChatNormalize.NormalizedProjectKept | frontend/app/api/ai/chat/route.ts:156 | a project title with text is kept, trimmed |
| ChatNormalize.MapArray | frontend/app/api/ai/chat/route.ts:154-188 | an array is coerced item by item, keeping length and order; a non-array gives [] |
| ChatNormalize.NormalizeCVData | frontend/app/api/ai/chat/route.ts:144-189 | the normalised document is normal for every input; each scalar is its coerced field with the default "Candidate Name", "Dhaka", "Bangladesh" or "N/A", the e-mail and links go through their checks, and each list has the input array's length, or is empty for a non-array |
| ChatNormalize.NormalizedEntries | frontend/app/api/ai/chat/route.ts:154-188 | each project, work-experience and education entry is the normalisation of the input item at the same position |
| ChatNormalize.FallbackApplies | frontend/app/api/ai/chat/route.ts:81-91 | a non-primitive or blank value gives the fallback |
| ChatNormalize.NormalizedDefaults | frontend/app/api/ai/chat/route.ts:145-149 | a missing, non-primitive or blank name, city, country or phone gives "Candidate Name", "Dhaka", "Bangladesh" or "N/A" |
| ChatNormalize.NormalizedNameKept | frontend/app/api/ai/chat/route.ts:145 | a full name with text is kept, trimmed |
| ChatNormalize.NormalIsValid | frontend/app/api/ai/chat/route.ts:144-189 | every normal document satisfies the schema's field rules |
| ChatNormalize.NormalizedIsValid | frontend/app/api/ai/chat/route.ts:216-224 | the normalised document of any payload passes the schema's rules |
| ChatNormalize.NormalizedIsAccepted | frontend/app/api/ai/chat/route.ts:216-224 | the JSON of the normalised document of any payload is accepted by the schema |
| ChatNormalize.SkillsFixed | frontend/app/api/ai/chat/route.ts:115-123 | normal skill categories come through the skills normaliser unchanged |
| ChatNormalize.ProjectFixed | frontend/app/api/ai/chat/route.ts:154-166 | a normal project comes through the project normaliser unchanged |
| ChatNormalize.ExperienceFixed | frontend/app/api/ai/chat/route.ts:167-179 | a normal work-experience entry comes through unchanged |
| ChatNormalize.EducationFixed | frontend/app/api/ai/chat/route.ts:180-188 | a normal education entry comes through unchanged |
| ChatNormalize.SafeEmailFixed | frontend/app/api/ai/chat/route.ts:93-97 | a clean e-mail address is kept |
| ChatNormalize.SafeUrlFixed | frontend/app/api/ai/chat/route.ts:104-113 | a normal link is kept |
| ChatNormalize.NormalizeFixed | frontend/app/api/ai/chat/route.ts:144-189 | a normal document is a fixed point: normalising its JSON gives it back |
| ChatNormalize.NormalizeIdempotent | frontend/app/api/ai/chat/route.ts:144-189 | normalising an already normalised document changes nothing |
| ChatNormalize.NormalizeImage | frontend/app/api/ai/chat/route.ts:144-189 | a document is the normalisation of some payload if and only if it is normal |
| ModelReply.FenceCapture | frontend/app/api/ai/chat/route.ts:36-39 | a fenced capture is trimmed |
| ModelReply.FencedJson | frontend/app/api/ai/chat/route.ts:36-39 | a fenced-block candidate is non-empty and trimmed |
| ModelReply.BraceSpanSlice | frontend/app/api/ai/chat/route.ts:41-45 | the first-brace to last-brace candidate is a contiguous slice of the text |
| ModelReply.FencedJsonSlice | frontend/app/api/ai/chat/route.ts:36-39 | the fenced candidate is a contiguous slice of the text |
| ModelReply.ExtractJson | frontend/app/api/ai/chat/route.ts:30-48 | what extractJson returns is always a slice of the trimmed reply, and the whole trimmed reply when that is one object |
| ModelReply.ExtractWholeObject | frontend/app/api/ai/chat/route.ts:32-34 | a reply that is one object after trimming is returned whole |
| ModelReply.ExtractFencedBlock | frontend/app/api/ai/chat/route.ts:36-39 | a json-fenced block yields exactly its clean body |
| ModelReply.ExtractWrappedObject | frontend/app/api/ai/chat/route.ts:41-45 | an object with prose before it and after it, and no other braces or fences, is cut out exactly |
| ModelReply.ExtractNoCandidate | frontend/app/api/ai/chat/route.ts:47 | a reply with no brace and no fence is returned trimmed |
| ModelReply.NoBacktickNoFence | frontend/app/api/ai/chat/route.ts:36-39 | without a backtick there is no fenced candidate |
| ModelReply.ContentChunksRoundTrip | frontend/app/api/ai/chat/route.ts:50-65 | text chunks are joined by newlines, so splitting the joined content on newlines gives the chunks back |
| ModelReply.ContentToText | frontend/app/api/ai/chat/route.ts:50-65 | a string is returned as it is; for chunks, every chunk's text occurs in the result; null is serialised as "" |
| ModelReply.MaybeParseJson | frontend/app/api/ai/chat/route.ts:67-79 | when the extracted text does not parse, there is no payload |
| ModelReply.EnvelopeUnwrapped | frontend/app/api/ai/chat/route.ts:71-76 | a function-call envelope is unwrapped: string arguments are parsed again, other arguments are taken as they are |
| ModelReply.NonEnvelopeUnchanged | frontend/app/api/ai/chat/route.ts:67-79 | any other parsed value is the payload itself |
| ModelReply.PayloadData | frontend/app/api/ai/chat/route.ts:218 | the document is the payload's `data` when that is present and not null, else the whole payload |
| ChatRoute.FirstFormError | frontend/app/api/ai/chat/route.ts:196-198 | a root-level error message exists exactly when the body is not an object |
| ChatRoute.Caught | frontend/app/api/ai/chat/route.ts:227-229 | the catch clause answers 500 with the thrown message, or the generic message when that is empty |
| ChatRoute.Receive | frontend/app/api/ai/chat/route.ts:191-215 | the route reaches a payload exactly when the body is valid, the model replied and its JSON parsed; it answers 400 exactly for an invalid body; every other early answer is the catch clause's |
| ChatRoute.Respond | frontend/app/api/ai/chat/route.ts:216-226 | a reply's document passes the schema and is the normalised payload data; its message is clean |
| ChatRoute.RespondReplies | frontend/app/api/ai/chat/route.ts:220-224 | the shape check always passes, so a parsed payload always gets a 200 reply |
| ChatRoute.HandleChat | frontend/app/api/ai/chat/route.ts:191-230 | every 200 answer carries a valid document and a clean message |
| ChatRoute.HandleChatOutcomes | frontend/app/api/ai/chat/route.ts:191-230 | POST answers with the normalised document exactly when a payload was reached, and otherwise with the early answer |
| ChatRoute.ReplyAccepted | frontend/app/api/ai/chat/route.ts:220-226 | the JSON of any document the route returns is accepted by the schema |
| ChatRoute.InvalidRequestRejected | frontend/app/api/ai/chat/route.ts:196-198 | an invalid request gets a 400 whatever the model would have said |
| DraftsStorage.TitleOrFallback | frontend/lib/drafts-storage.ts:36 | the title is the trimmed given title, else the trimmed full name, else "Untitled Resume"; it is always clean |
| DraftsStorage.TitleOrFallbackIdempotent | frontend/lib/drafts-storage.ts:47-51 | normalising a title that was already normalised changes nothing |
| DraftsStorage.UntitledKept | frontend/lib/drafts-storage.ts:49 | "Untitled Resume" is kept as a title |
| DraftsStorage.CreateDraft | frontend/lib/drafts-storage.ts:32-41 | a new draft carries the id, the data, the same creation and update time, and the fallback title |
| DraftsStorage.Normalized | frontend/lib/drafts-storage.ts:47-51 | upserting keeps the id, creation time and data, stamps the update time and cleans the title |
| DraftsStorage.CreatedIsNormalized | frontend/lib/drafts-storage.ts:32-51 | a freshly created draft is unchanged by the upsert normalisation at the same time |
| DraftsStorage.GetDrafts | frontend/lib/drafts-storage.ts:15-25 | the stored list when there is a window and the entry is an array, else [] |
| DraftsStorage.DraftWithId | frontend/lib/drafts-storage.ts:63 | a draft is found if and only if one carries the id; the one found is the first entry carrying it |
| DraftsStorage.Upserted | frontend/lib/drafts-storage.ts:43-57 | the upserted list holds the draft and otherwise only old entries; it has the old length exactly when the id was present, else one more |
| DraftsStorage.Deleted | frontend/lib/drafts-storage.ts:65-66 | the remaining drafts are exactly the old ones with another id, as many as there are such drafts, so none is merged; the list does not grow |
| DraftsStorage.UpsertReplaces | frontend/lib/drafts-storage.ts:53-54 | an existing id is replaced in place at its first position; the length is unchanged |
| DraftsStorage.UpsertPrepends | frontend/lib/drafts-storage.ts:55-57 | a new id goes in front of the unchanged list |
| DraftsStorage.UpsertThenFind | frontend/lib/drafts-storage.ts:43-63 | after an upsert, looking up its id finds exactly the upserted draft |
| DraftsStorage.UpsertKeepsOthers | frontend/lib/drafts-storage.ts:43-63 | an upsert does not change what any other id finds |
| DraftsStorage.DeleteRemoves | frontend/lib/drafts-storage.ts:65-68 | after a delete, the id is gone; the rest is an order-preserving subsequence holding every other draft; a missing id changes nothing |
| DraftsStorage.DraftStore.constructor | frontend/lib/drafts-storage.ts:13-25 | the store starts from the given window flag and stored entry |
| DraftsStorage.DraftStore.SaveDrafts | frontend/lib/drafts-storage.ts:27-30 | with a window the entry becomes the list; without one nothing changes |
| DraftsStorage.DraftStore.UpsertDraft | frontend/lib/drafts-storage.ts:43-61 | returns the normalised draft; stores the upserted list; the id then finds the saved draft; without a window nothing changes |
| DraftsStorage.DraftStore.DeleteDraft | frontend/lib/drafts-storage.ts:65-68 | stores the list without the id, so the id is no longer found; without a window nothing changes |
| DraftService.SavedReplaces | backend/app/services/draft_service.py:39-46 | an existing id is replaced at its first position; the length is unchanged |
| DraftService.Saved | backend/app/services/draft_service.py:34-48 | the saved list holds the draft and otherwise only old entries; it has the old length exactly when the id was present, else one more |
| DraftService.Removed | backend/app/services/draft_service.py:56-59 | the remaining drafts are exactly the old ones with another id, as many as there are such drafts, so none is merged; the list does not grow |
| DraftService.SavedAppends | backend/app/services/draft_service.py:47-48 | a new id is appended after the unchanged list |
| DraftService.SavedThenFound | backend/app/services/draft_service.py:26-48 | after a save, looking up its id finds exactly the saved draft |
| DraftService.SavedKeepsOthers | backend/app/services/draft_service.py:26-48 | a save does not change what any other id finds |
| DraftService.RemovedRemoves | backend/app/services/draft_service.py:56-59 | after removal the id is gone, every other draft stays in order, and a missing id changes nothing |
| DraftService.DraftStore.constructor | backend/app/services/draft_service.py:15-17 | the store holds the existing file's list, or an empty list written once when there was no file |
| DraftService.DraftStore.GetDraftById | backend/app/services/draft_service.py:26-31 | the result is the first draft with the id; there is one if and only if some draft carries the id |
| DraftService.DraftStore.SaveDraft | backend/app/services/draft_service.py:34-53 | returns the draft; the file holds the saved list, written once more; the id then finds the draft |
| DraftService.DraftStore.DeleteDraft | backend/app/services/draft_service.py:56-66 | returns true if and only if some draft had the id; then the file holds the list without it, written once more; otherwise nothing is written |
| Builder.FormSkills | frontend/app/builder/page.tsx:36-40 | the form's skill list holds clean strings only, in order, drawn from the items' text; a non-array gives [] |
| Builder.FormSkillsKeeps | frontend/app/builder/page.tsx:38 | every item whose trimmed `String(x)` is non-empty is in the form's skill list, which has exactly as many entries as there are such items |
| Builder.FormNormalizeTechnicalSkills | frontend/app/builder/page.tsx:32-69 | every category is well formed; array and legacy inputs give ordered sub-lists of their coerced categories; legacy categories are non-empty; anything else gives [] |
| Builder.FormArrayCategoryKept | frontend/app/builder/page.tsx:33-42 | an array item's category is kept if and only if its title has text or it has a skill |
| Builder.FormCategoryCount | frontend/app/builder/page.tsx:32-69 | both branches give exactly as many categories as there are items or buckets that pass their test |
| Builder.FormLegacyBucketKept | frontend/app/builder/page.tsx:44-66 | a legacy bucket becomes a category if and only if its skill list is non-empty |
| Builder.FormSkillsFixed | frontend/app/builder/page.tsx:32-42 | well-formed categories come through the form's normaliser unchanged |
| Builder.FormNormalizeIdempotent | frontend/app/builder/page.tsx:32-69 | the form's skills normaliser is idempotent |
| Builder.RouteSkillsFormFixed | frontend/app/builder/page.tsx:32-42 | categories normalised by the route are also fixed points of the form's normaliser |
| Builder.NullSkillDiffers | frontend/app/builder/page.tsx:38 | the two normalisers differ on a null skill: the form keeps "null", the route drops it |
| Builder.Spread | frontend/app/builder/page.tsx:71-75 | spreading an object copies its fields, spreading a string or an array gives index keys, and other values give nothing |
| Builder.IndexKeysDistinct | frontend/app/builder/page.tsx:71-75 | distinct indexes give distinct keys |
| Builder.NormalizeCvDataForForm | frontend/app/builder/page.tsx:71-75 | the keys are the blank document's, the spread's and technical_skills; spread values win over blank ones; the skills are the form's normalisation |
| Builder.NormalizeForFormIdempotent | frontend/app/builder/page.tsx:71-75 | loading a loaded document again changes nothing |
| Builder.CompleteObjectLoadsUnchanged | frontend/app/builder/page.tsx:152-157 | an object with every key and normalised skills loads into the form unchanged |
| Builder.EncodedLoadsUnchanged | frontend/app/builder/page.tsx:152-157 | an encoded document with all links present and well-formed skills loads unchanged |
| Builder.RouteReplyLoadsUnchanged | frontend/app/builder/page.tsx:223 | a document returned by the AI route loads into the form unchanged |
| Builder.HasText | frontend/app/builder/page.tsx:29 | a value has text if and only if it is not blank |
| Builder.CompletionByTab | frontend/app/builder/page.tsx:109-131 | the personal tab needs a name and an e-mail or phone; no list tab is complete while its list is empty |
| Builder.TabIndex | frontend/app/builder/page.tsx:26 | every tab sits at its index in the tab order |
| Builder.NormalizedCompletion | frontend/app/builder/page.tsx:109-131 | for a normal document the personal tab is complete, and each list tab is complete if and only if its list is non-empty |
| Builder.CompletedSections | frontend/app/builder/page.tsx:133-136 | the count is the number of complete tabs: at most five, five exactly when all are complete, zero exactly when none is |
| Builder.NextIncomplete | frontend/app/builder/page.tsx:180 | the next incomplete tab after the given one, with every tab in between complete; none when all later tabs are complete |
| Builder.Advance | frontend/app/builder/page.tsx:175-188 | the tab moves only when the active tab has just become complete, and then to the next incomplete tab |
| Builder.AdvanceSettles | frontend/app/builder/page.tsx:175-188 | when completion has not changed the active tab stays |
| Builder.TabNavigator.constructor | frontend/app/builder/page.tsx:82 | the navigator starts on the personal tab with no previous completion |
| Builder.TabNavigator.Select | frontend/app/builder/page.tsx:293 | a tab click sets the active tab and keeps the previous completion |
| Builder.TabNavigator.Evaluate | frontend/app/builder/page.tsx:175-188 | the effect moves the tab as Advance says and remembers the current completion |
| Builder.DraftTitle | frontend/app/builder/page.tsx:165 | the autosave title is never blank |
| Builder.DraftTitleStored | frontend/app/builder/page.tsx:165 | with a name, the stored title is the name without leading white space followed by " Resume" |
| Builder.DraftTitleUnnamed | frontend/app/builder/page.tsx:194 | without a name, the stored title is "Untitled Resume" |
| Builder.SplitList | frontend/app/builder/page.tsx:462 | a list field's items are clean, free of the separator, and no more than the pieces of the split |
| Builder.SplitListKeeps | frontend/app/builder/page.tsx:462 | the items are the trimmed pieces in order, every piece with text is among them, and there are exactly as many items as such pieces |
| Builder.ListTransform | frontend/app/builder/page.tsx:462 | a string becomes the encoded split list; any other value is kept |
| Builder.SplitListJoin | frontend/app/builder/page.tsx:462 | clean separator-free items joined by the separator split back to themselves |
| Builder.SplitListIdempotent | frontend/app/builder/page.tsx:462 | splitting a joined split list gives the same list |
| Builder.CommaFieldRoundTrip | frontend/app/builder/page.tsx:628-634 | a comma-separated list field shows its items joined by commas and reads them back unchanged |
| Builder.LineFieldMergesItems | frontend/app/builder/page.tsx:521 | a newline field showing ["A", "B"] reads back ["A,B"] |
| Builder.LineFieldRoundTrip | frontend/app/builder/page.tsx:576 | with items shown one per line, a newline field reads its items back unchanged |
| Builder.ShownText | frontend/app/builder/page.tsx:628-634 | a list field shows `String(list)`: the items joined by "," |
| AiChat.Percentage | frontend/app/resumes/ai-chat/page.tsx:130 | rounds 100·count/8 half up; 100 exactly when all eight categories are covered; at least 80 exactly when seven or more are |
| AiChat.UserText | frontend/app/resumes/ai-chat/page.tsx:116-119 | every user message's lower-cased content occurs in the text; without user messages the text is "" |
| AiChat.GetCoverage | frontend/app/resumes/ai-chat/page.tsx:115-137 | a category is covered if and only if one of its keywords occurs in the lower-cased user text; the count is the number covered; the percentage is its rounding |
| AiChat.CoverageGrows | frontend/app/resumes/ai-chat/page.tsx:115-137 | adding a message never uncovers a category, nor lowers the count or the percentage |
| AiChat.UserTextAppend | frontend/app/resumes/ai-chat/page.tsx:116-119 | an assistant message changes neither the user text nor the coverage; a user message's lower-cased content is appended after one space, or is the whole text when it is the first |
| AiChat.MissingFrom | frontend/app/resumes/ai-chat/page.tsx:218 | a category's label is listed exactly when the category is not covered; the list is empty exactly when every category from that point on is covered |
| AiChat.MissingInOrder | frontend/app/resumes/ai-chat/page.tsx:218 | the missing labels come in category order |
| AiChat.MissingNames | frontend/app/resumes/ai-chat/page.tsx:218 | since labels are distinct, a label is listed if and only if its category is uncovered |
| AiChat.Guidance | frontend/app/resumes/ai-chat/page.tsx:218-223 | names the first three missing categories in order; gives the closing line exactly when all are covered |
| AiChat.ReplyText | frontend/app/resumes/ai-chat/page.tsx:226 | the reply starts with the fixed text, then the percentage's digits and "%", and ends with the guidance |
| AiChat.ReplyReportsPercentage | frontend/app/resumes/ai-chat/page.tsx:226 | the percentage can be read back: two equal replies report the same percentage |
| AiChat.SessionTitle | frontend/app/resumes/ai-chat/page.tsx:229-232 | only a session still called "New AI Resume Chat" is renamed, and never to "" |
| AiChat.SessionTitleOfMessage | frontend/app/resumes/ai-chat/page.tsx:229-232 | for a trimmed, non-empty message the title is its first six words, which split back to those words |
| AiChat.NewSession | frontend/app/resumes/ai-chat/page.tsx:108-113 | a new session is called "New AI Resume Chat" and holds only the greeting |
| AiChat.Greeting | frontend/app/resumes/ai-chat/page.tsx:104-106 | the greeting is an assistant message with the fixed welcome text |
| AiChat.FreshSessionUncovered | frontend/app/resumes/ai-chat/page.tsx:104-137 | a new session holding only the greeting has no category covered and 0% coverage |
| AiChat.UpdateById | frontend/app/resumes/ai-chat/page.tsx:202-206 | every session with the id is updated, the others are kept, and the length is unchanged |
| AiChat.ActiveIn | frontend/app/resumes/ai-chat/page.tsx:179-182 | the first session with the id when there is one, else the first session; the result is always in the list; none only for an empty list |
| AiChat.UpdateThenActive | frontend/app/resumes/ai-chat/page.tsx:202-206 | after an update that keeps ids, the active session is the update of the old active session |
| AiChat.Answered | frontend/app/resumes/ai-chat/page.tsx:225-239 | the session gains the user's message and an assistant reply with the reply id; it keeps its id, takes the new time, and is renamed by the title rule |
| AiChat.AnsweredReports | frontend/app/resumes/ai-chat/page.tsx:215-227 | the reply reports the coverage of the conversation including the new message |
| AiChat.EditorPrompt | frontend/app/resumes/ai-chat/page.tsx:246-251 | the prompt is blank if and only if every user message is blank |
| AiChat.GeneratedTitle | frontend/app/resumes/ai-chat/page.tsx:269 | the generated draft's title is never blank |
| AiChat.GeneratedTitleStored | frontend/app/resumes/ai-chat/page.tsx:269-270 | the draft is stored under that title, trimmed; the storage fallback never applies |
| AiChat.GeneratedTitleNamed | frontend/app/resumes/ai-chat/page.tsx:269-270 | a full name with text gives "<name> Resume", stored with the leading white space trimmed |
| AiChat.GeneratedTitleUnnamed | frontend/app/resumes/ai-chat/page.tsx:269-270 | a falsy full name gives and stores "AI Generated Resume" |
| AiChat.ChatPage.constructor | frontend/app/resumes/ai-chat/page.tsx:140-143 | the page starts with no sessions, no active id and an empty input |
| AiChat.ChatPage.Load | frontend/app/resumes/ai-chat/page.tsx:147-172 | loads the stored list when it is non-empty, else one new session; the first session is active and is found |
| AiChat.ChatPage.StartNewChat | frontend/app/resumes/ai-chat/page.tsx:194-200 | the new session goes in front and becomes the active session; the input is cleared |
| AiChat.ChatPage.UpdateActiveSession | frontend/app/resumes/ai-chat/page.tsx:202-206 | sessions with the active id are replaced by their update; the rest of the state is kept |
| AiChat.ChatPage.SendMessage | frontend/app/resumes/ai-chat/page.tsx:208-241 | a blank input, or having no session, changes nothing; otherwise the input is cleared and the active session is answered with the trimmed message |

## Left out

- The language model is not modelled: `getModel`, the API key and the model call (route.ts:17-28, 200-212). The model's reply and the thrown message are parameters of `ChatRoute.Receive`. A missing model stands as `reply == None`.
- The generate route (frontend/app/api/ai/generate/route.ts) is not part of this model.
- `JSON.parse` and `JSON.stringify` are function parameters (`parse`, `stringify`). Their behaviour on text is not modelled.
- `ChatRoute.RequestValid` models RequestSchema. `ChatRoute.Respond` models the ResponseSchema check as `Valid` on the record. `Validators.AcceptsEncodeIffValid` proves the two agree on encoded documents.
- `Validators.IsEmail` follows zod's e-mail pattern. `Validators.IsUrl` is a simplified reading of the URL parser: a scheme and a colon, and for http, https, ws, wss and ftp a non-empty host without spaces. Full WHATWG URL parsing (ports, IP addresses, percent-encoding, host validation) is not modelled.
- Lower-casing is ASCII only. Strings are sequences of code points, not UTF-16 units.
- The regular expressions of `extractJson` are evaluated directly: case-insensitive "```json", then the first "```" after it. No general regex engine is modelled.
- localStorage and the drafts file are fields of the two `DraftStore` classes. Time stamps and UUIDs are parameters.
- `hasWindow` is a field fixed when the store is built.
- AiChat.ChatPage.Load: `JSON.parse(raw) as ChatSession[]` (ai-chat/page.tsx:157) is an unchecked cast. The model takes the stored value as `Option<seq<ChatSession>>`, so only well-formed sessions are represented. A non-empty array of other values (for example `[1]`, which leaves the active id undefined) is not modelled.
- The greeting message (`AiChat.Greeting`) is created once when the page module loads, so its id and time stamp are parameters shared by every new session.
- DraftsStorage.GetDrafts: `JSON.parse(raw) as LocalDraft[]` is an unchecked cast. The stored entry is the `Stored` datatype: either a list of drafts or anything else.
- DraftService.DraftStore.SaveDraft: the `KeyError` raised by a stored entry without "id" is not modelled. Every stored draft has an id.
- The Pydantic round trip `json.loads(draft.json())` is the identity here.
- The chat page's effect that writes sessions back to localStorage (ai-chat/page.tsx:174-177) is not modelled. It performs no computation beyond serialisation.
- Rendering, debouncing and loading flags are not modelled.
- The builder's `onSendChat` request/response plumbing (page.tsx:202-241) is not modelled beyond the reset it ends with (`Builder.RouteReplyLoadsUnchanged`).
- The network call and the navigation of `openInEditor` are not modelled beyond its prompt, its title and the upsert.
- AiChat.Percentage: `Math.round` is modelled only for the counts 0 to 8 that `getCoverage` produces.
- Builder.DraftTitle: the autosave's createdAt is overwritten on every save in the source. The model passes both time stamps through `Normalized` and does not single this out.

## Findings

| source | as written | input that shows it | evidently intended | confidence | as-written member | corrected member |
|---|---|---|---|---|---|---|
| frontend/app/builder/page.tsx:521 | the project and work-experience bullet text areas display the stored array as `String(array)`, i.e. joined by commas, but read it back by splitting on newlines (also page.tsx:576, via the field at 628-634) | a project whose bullets are ["A", "B"], edited and saved, becomes ["A,B"] | the items are shown one per line, so that reading them back gives the same list | likely, not executed | Builder.LineFieldMergesItems | Builder.LineFieldRoundTrip |
