/**
 * The AI intake chat (frontend/app/resumes/ai-chat/page.tsx): a list of chat sessions, the
 * keyword coverage of what the user has told the assistant so far, the scripted reply that
 * reports it, and the prompt handed to the generator. Message ids and timestamps
 * (crypto.randomUUID, Date) are parameters; the session list is the field of a ChatPage.
 */
module AiChat {
  import opened Wrappers
  import opened Strings
  import opened Seqs
  import opened JsonValue
  import DraftsStorage

  datatype Role = User | Assistant

  datatype ChatMessage = ChatMessage(id: string, role: Role, content: string, createdAt: string)

  datatype ChatSession = ChatSession(id: string, title: string, updatedAt: string, messages: seq<ChatMessage>)

  datatype InfoCategory = InfoCategory(key: string, name: string, hints: string, keywords: seq<string>)

  /** The eight kinds of information the intake looks for, in display order. */
  const Categories: seq<InfoCategory> := [
    InfoCategory("identity", "Name + contact details", "Full name, email, phone, city/country.",
      ["name", "email", "phone", "city", "country", "@"]),
    InfoCategory("role", "Target role or summary", "Your target job title and short profile summary.",
      ["developer", "engineer", "designer", "analyst", "manager", "summary", "objective"]),
    InfoCategory("skills", "Skills + tools", "Languages, frameworks, tools, cloud, database, etc.",
      ["skills", "language", "framework", "tool", "react", "node", "python", "java", "docker", "sql"]),
    InfoCategory("projects", "Projects", "Project names, tech stack, outcomes, links.",
      ["project", "built", "github", "live", "portfolio", "feature"]),
    InfoCategory("experience", "Work experience", "Role, company, duration, achievements, impact.",
      ["experience", "company", "worked", "intern", "role", "achievement", "impact"]),
    InfoCategory("education", "Education", "Institution, degree, years.",
      ["education", "university", "college", "degree", "bachelor", "master"]),
    InfoCategory("achievements", "Results / metrics", "Numbers like %, revenue, users, performance gains.",
      ["%", "improved", "increased", "reduced", "users", "revenue", "performance"]),
    InfoCategory("links", "Public links", "LinkedIn, GitHub, portfolio links.",
      ["linkedin", "github", "http://", "https://", "portfolio"])
  ]

  const NewChatTitle: string := "New AI Resume Chat"
  const FallbackChatTitle: string := "AI Resume Chat"
  const ExcellentCoverage: string := "Excellent coverage." + " You can now generate your resume and open it in the editor."
  const GuidancePrefix: string := "Great. Next, please share: "
  const ReplyPrefix: string := "Received. Your profile coverage is now "
  const InitialGreeting: string :=
    "Hi! I will help you build your resume. Share your information in natural language (about you, skills, projects, experience, education, links). I\U{2019}ll track coverage and tell you what is missing."

  // ---------------------------------------------------------------------------------------
  // Sequences of messages and texts
  // ---------------------------------------------------------------------------------------

  predicate IsUser(m: ChatMessage) {
    m.role == User
  }

  function LowerContent(m: ChatMessage): string {
    ToLower(m.content)
  }

  function Content(m: ChatMessage): string {
    m.content
  }

  // ---------------------------------------------------------------------------------------
  // getCoverage
  // ---------------------------------------------------------------------------------------

  /** The user's messages, lower-cased and joined with spaces. */
  function UserText(messages: seq<ChatMessage>): (r: string)
    ensures forall k :: 0 <= k < |messages| && IsUser(messages[k]) ==> Contains(r, LowerContent(messages[k]))
    ensures (forall k :: 0 <= k < |messages| ==> !IsUser(messages[k])) ==> r == ""
  {
    var users := Filter(messages, IsUser);
    var texts := Map(users, LowerContent);
    forall k | 0 <= k < |messages| && IsUser(messages[k])
      ensures Contains(Join(texts, " "), LowerContent(messages[k]))
    {
      assert messages[k] in users;
      var j :| 0 <= j < |users| && users[j] == messages[k];
      JoinContains(texts, " ", j);
    }
    assert (forall k :: 0 <= k < |messages| ==> !IsUser(messages[k])) ==> users == [] by {
      if users != [] {
        assert IsUser(users[0]) && users[0] in messages;
      }
    }
    Join(texts, " ")
  }

  /** A category is complete when one of its lower-cased keywords occurs in the user's text. */
  predicate Covers(text: string, c: InfoCategory) {
    exists j :: 0 <= j < |c.keywords| && Contains(text, ToLower(c.keywords[j]))
  }

  /** `Math.round(count / 8 * 100)` for a count of 0..8: the nearest whole percent, a half rounded up. */
  function Percentage(count: nat): (p: nat)
    requires count <= |Categories|
    ensures 8 * p <= 100 * count + 4 < 8 * p + 8
    ensures p <= 100
    ensures p == 100 <==> count == |Categories|
    ensures p >= 80 <==> count >= 7
  {
    (100 * count + 4) / 8
  }

  datatype Coverage = Coverage(covered: seq<bool>, completeCount: nat, percentage: nat)

  /** `getCoverage(messages)`: one flag per category in category order, their count and the percentage. */
  function GetCoverage(messages: seq<ChatMessage>): (r: Coverage)
    ensures |r.covered| == |Categories|
    ensures forall i :: 0 <= i < |Categories| ==> (r.covered[i] <==> Covers(UserText(messages), Categories[i]))
    ensures r.completeCount == CountTrue(r.covered) <= |Categories|
    ensures r.percentage == Percentage(r.completeCount)
  {
    var text := UserText(messages);
    var covered := Map(Categories, c => Covers(text, c));
    var count := CountTrue(covered);
    Coverage(covered, count, Percentage(count))
  }

  /** What the user has said stays said: a new message never leaves a category uncovered. */
  lemma UserTextGrows(messages: seq<ChatMessage>, m: ChatMessage, pat: string)
    requires Contains(UserText(messages), pat)
    ensures Contains(UserText(messages + [m]), pat)
  {
    var users := Filter(messages, IsUser);
    var texts := Map(users, LowerContent);
    FilterAppend(messages, m, IsUser);
    if IsUser(m) {
      assert Map(users + [m], LowerContent) == texts + [LowerContent(m)];
      JoinAppendContains(texts, LowerContent(m), pat);
    } else {
      assert Filter(messages + [m], IsUser) == users;
    }
  }

  /** Coverage only grows as the conversation goes on. */
  lemma CoverageGrows(messages: seq<ChatMessage>, m: ChatMessage)
    ensures var before := GetCoverage(messages);
      var after := GetCoverage(messages + [m]);
      && (forall i :: 0 <= i < |Categories| ==> before.covered[i] ==> after.covered[i])
      && before.completeCount <= after.completeCount
      && before.percentage <= after.percentage
  {
    var before := GetCoverage(messages);
    var after := GetCoverage(messages + [m]);
    forall i | 0 <= i < |Categories| && before.covered[i] ensures after.covered[i] {
      var c := Categories[i];
      var j :| 0 <= j < |c.keywords| && Contains(UserText(messages), ToLower(c.keywords[j]));
      UserTextGrows(messages, m, ToLower(c.keywords[j]));
    }
    CountTrueMono(before.covered, after.covered);
  }

  /** Only user messages count, joined by one space: an assistant message changes neither the text nor the
      coverage, and a user message's lower-cased content is appended after a space, or alone when it is the first. */
  lemma {:induction false} UserTextAppend(messages: seq<ChatMessage>, m: ChatMessage)
    ensures !IsUser(m) ==> UserText(messages + [m]) == UserText(messages)
    ensures !IsUser(m) ==> GetCoverage(messages + [m]) == GetCoverage(messages)
    ensures IsUser(m) && (exists k :: 0 <= k < |messages| && IsUser(messages[k])) ==>
      UserText(messages + [m]) == UserText(messages) + " " + LowerContent(m)
    ensures IsUser(m) && (forall k :: 0 <= k < |messages| ==> !IsUser(messages[k])) ==>
      UserText(messages + [m]) == LowerContent(m)
  {
    var users := Filter(messages, IsUser);
    var texts := Map(users, LowerContent);
    FilterAppend(messages, m, IsUser);
    if IsUser(m) {
      assert Map(users + [m], LowerContent) == texts + [LowerContent(m)];
      assert (exists k :: 0 <= k < |messages| && IsUser(messages[k])) ==> texts != [] by {
        if exists k :: 0 <= k < |messages| && IsUser(messages[k]) {
          var k :| 0 <= k < |messages| && IsUser(messages[k]);
          assert messages[k] in users;
        }
      }
      if texts != [] {
        JoinAppend(texts, LowerContent(m), " ");
      } else {
        assert texts + [LowerContent(m)] == [LowerContent(m)];
      }
    } else {
      assert Filter(messages + [m], IsUser) == users;
    }
  }

  // ---------------------------------------------------------------------------------------
  // The scripted reply and the session title
  // ---------------------------------------------------------------------------------------

  /** The labels of the categories not yet covered, from index `i` on, in category order. */
  function MissingFrom(covered: seq<bool>, i: nat): (r: seq<string>)
    requires |covered| == |Categories| && i <= |covered|
    ensures |r| <= |covered| - i
    ensures r == [] <==> forall k :: i <= k < |covered| ==> covered[k]
    ensures forall k :: i <= k < |covered| && !covered[k] ==> Categories[k].name in r
    ensures forall x :: x in r ==> exists k :: i <= k < |covered| && !covered[k] && x == Categories[k].name
    decreases |covered| - i
  {
    if i == |covered| then []
    else (if covered[i] then [] else [Categories[i].name]) + MissingFrom(covered, i + 1)
  }

  function Name(c: InfoCategory): string {
    c.name
  }

  /** The missing labels come in category order. */
  lemma {:induction false} MissingInOrder(covered: seq<bool>, i: nat)
    requires |covered| == |Categories| && i <= |covered|
    ensures Subseq(MissingFrom(covered, i), Map(Categories[i..], Name))
    decreases |covered| - i
  {
    if i < |covered| {
      MissingInOrder(covered, i + 1);
      var names := Map(Categories[i..], Name);
      MapTail(Categories[i..], Name);
      assert Categories[i..][1..] == Categories[i + 1..];
      var r := MissingFrom(covered, i);
      var rest := MissingFrom(covered, i + 1);
      if covered[i] {
        assert r == rest;
        SubseqDropHead(r, names);
      } else {
        assert r == [Categories[i].name] + rest;
        assert r[1..] == rest;
        assert names[0] == Categories[i].name;
      }
    }
  }

  /** The position of a category label, read off its first two letters; -1 for any other text. */
  ghost function LabelIndex(s: string): int {
    if |s| < 2 then -1
    else if s[0] == 'N' then 0
    else if s[0] == 'T' then 1
    else if s[0] == 'S' then 2
    else if s[0] == 'P' then (if s[1] == 'r' then 3 else 7)
    else if s[0] == 'W' then 4
    else if s[0] == 'E' then 5
    else if s[0] == 'R' then 6
    else -1
  }

  /** Each label determines its category's position, so no two categories share a label. */
  lemma LabelsIndexed()
    ensures forall k :: 0 <= k < |Categories| ==> LabelIndex(Categories[k].name) == k
  {
    assert LabelIndex(Categories[0].name) == 0;
    assert LabelIndex(Categories[1].name) == 1;
    assert LabelIndex(Categories[2].name) == 2;
    assert LabelIndex(Categories[3].name) == 3;
    assert LabelIndex(Categories[4].name) == 4;
    assert LabelIndex(Categories[5].name) == 5;
    assert LabelIndex(Categories[6].name) == 6;
    assert LabelIndex(Categories[7].name) == 7;
  }

  /** A label is listed exactly when its category, from `i` on, is not covered. */
  lemma MissingNames(covered: seq<bool>, i: nat)
    requires |covered| == |Categories| && i <= |covered|
    ensures forall k :: i <= k < |covered| ==> (Categories[k].name in MissingFrom(covered, i) <==> !covered[k])
  {
    var r := MissingFrom(covered, i);
    forall k | i <= k < |covered| && Categories[k].name in r
      ensures !covered[k]
    {
      var m :| i <= m < |covered| && !covered[m] && Categories[k].name == Categories[m].name;
      LabelsIndexed();
      assert k == LabelIndex(Categories[k].name) == m;
    }
  }

  function Min(a: nat, b: nat): nat {
    if a <= b then a else b
  }

  /** The reply's guidance: the first three missing labels, or the closing line when nothing is missing. */
  function Guidance(covered: seq<bool>): (r: string)
    requires |covered| == |Categories|
    ensures var missing := MissingFrom(covered, 0);
      missing != [] ==> r == GuidancePrefix + Join(missing[..Min(3, |missing|)], ", ") + "."
    ensures r == ExcellentCoverage <==> forall k :: 0 <= k < |covered| ==> covered[k]
  {
    var missing := MissingFrom(covered, 0);
    if |missing| > 0 then
      var r := GuidancePrefix + Join(missing[..Min(3, |missing|)], ", ") + ".";
      assert r[0] == GuidancePrefix[0] == 'G' && ExcellentCoverage[0] == 'E';
      r
    else ExcellentCoverage
  }

  /** The assistant's reply after a user message. */
  function ReplyText(c: Coverage): (r: string)
    requires |c.covered| == |Categories|
    ensures var n := |ReplyPrefix| + |NatToString(c.percentage)|;
      && |r| == n + 3 + |Guidance(c.covered)|
      && r[..|ReplyPrefix|] == ReplyPrefix
      && r[|ReplyPrefix|..n] == NatToString(c.percentage)
      && r[n] == '%'
      && r[|r| - |Guidance(c.covered)|..] == Guidance(c.covered)
  {
    var p := NatToString(c.percentage);
    var g := Guidance(c.covered);
    ConcatParts(ReplyPrefix, p, "%. ", g);
    ReplyPrefix + p + "%. " + g
  }

  /** The percentage can be read back from a reply: equal replies report equal percentages. */
  lemma ReplyReportsPercentage(c: Coverage, d: Coverage)
    requires |c.covered| == |Categories| && |d.covered| == |Categories|
    requires ReplyText(c) == ReplyText(d)
    ensures c.percentage == d.percentage
  {
    var r := ReplyText(c);
    var p, q := NatToString(c.percentage), NatToString(d.percentage);
    DigitRunUnique(r, |ReplyPrefix|, p, q);
    NatToStringInjective(c.percentage, d.percentage);
  }

  /** The first space-separated piece of a text that does not start with white space is not empty. */
  lemma FirstWordNonEmpty(text: string)
    requires IsClean(text)
    ensures Split(text, ' ')[0] != ""
  {
    assert text[0] != ' ';
  }

  /** A join is at least as long as its first piece. */
  lemma JoinFirst(xs: seq<string>, sep: string)
    requires xs != []
    ensures |Join(xs, sep)| >= |xs[0]|
  {
  }

  /**
   * The title after a message: a session still called "New AI Resume Chat" takes the first six
   * space-separated words of the message, or "AI Resume Chat" when they join to "".
   */
  function SessionTitle(title: string, text: string): (r: string)
    ensures title != NewChatTitle ==> r == title
    ensures title == NewChatTitle ==> r != ""
  {
    if title == NewChatTitle then
      var words := Split(text, ' ');
      var head := Join(words[..Min(6, |words|)], " ");
      if head != "" then head else FallbackChatTitle
    else title
  }

  /** For the trimmed, non-empty text the page sends, the title is exactly the first six words; the fallback never shows. */
  lemma SessionTitleOfMessage(text: string)
    requires IsClean(text)
    ensures var words := Split(text, ' ');
      var r := SessionTitle(NewChatTitle, text);
      && r == Join(words[..Min(6, |words|)], " ")
      && Split(r, ' ') == words[..Min(6, |words|)]
  {
    var words := Split(text, ' ');
    var head := words[..Min(6, |words|)];
    FirstWordNonEmpty(text);
    JoinFirst(head, " ");
    SplitJoin(head, ' ');
  }

  // ---------------------------------------------------------------------------------------
  // Sessions
  // ---------------------------------------------------------------------------------------

  /** `initialAssistantMessage`: the assistant's greeting, created once when the page module loads. */
  function Greeting(id: string, createdAt: string): (m: ChatMessage)
    ensures !IsUser(m) && m.content == InitialGreeting
    ensures m.id == id && m.createdAt == createdAt
  {
    ChatMessage(id, Assistant, InitialGreeting, createdAt)
  }

  /** Every keyword of every category is a non-empty string. */
  lemma KeywordsNonEmpty()
    ensures forall i, j :: 0 <= i < |Categories| && 0 <= j < |Categories[i].keywords| ==> |Categories[i].keywords[j]| > 0
  {
  }

  /** A fresh chat holds only the greeting, which is not the user's: nothing is covered and the percentage is 0. */
  lemma FreshSessionUncovered(id: string, now: string, greetingId: string, loadedAt: string)
    ensures var c := GetCoverage(NewSession(id, now, Greeting(greetingId, loadedAt)).messages);
      && (forall i :: 0 <= i < |Categories| ==> !c.covered[i])
      && c.completeCount == 0 && c.percentage == 0
  {
    var messages := [Greeting(greetingId, loadedAt)];
    var c := GetCoverage(messages);
    assert UserText(messages) == "";
    KeywordsNonEmpty();
    forall i | 0 <= i < |Categories|
      ensures !c.covered[i]
    {
      var keywords := Categories[i].keywords;
      forall j | 0 <= j < |keywords|
        ensures !Contains("", ToLower(keywords[j]))
      {
        assert |ToLower(keywords[j])| > 0;
      }
    }
    CountTrueNone(c.covered);
  }

  /** `createNewSession()`: its one message is the greeting created once when the page module loads. */
  function NewSession(id: string, now: string, greeting: ChatMessage): (s: ChatSession)
    ensures s.id == id && s.title == NewChatTitle && s.updatedAt == now && s.messages == [greeting]
  {
    ChatSession(id, NewChatTitle, now, [greeting])
  }

  /** `prev.map((session) => (session.id === id ? updater(session) : session))`. */
  function UpdateById(sessions: seq<ChatSession>, id: string, f: ChatSession -> ChatSession): (r: seq<ChatSession>)
    ensures |r| == |sessions|
    ensures forall k :: 0 <= k < |r| ==> r[k] == (if sessions[k].id == id then f(sessions[k]) else sessions[k])
  {
    Map(sessions, (s: ChatSession) => if s.id == id then f(s) else s)
  }

  predicate HasId(s: ChatSession, id: string) {
    s.id == id
  }

  /** `sessions.find((session) => session.id === id) ?? sessions[0]`. */
  function ActiveIn(sessions: seq<ChatSession>, id: string): (r: Option<ChatSession>)
    ensures r.None? <==> sessions == []
    ensures (exists k :: 0 <= k < |sessions| && sessions[k].id == id) ==> r.Some? && r.value.id == id
    ensures (forall k :: 0 <= k < |sessions| ==> sessions[k].id != id) && sessions != [] ==> r == Some(sessions[0])
    ensures forall k :: 0 <= k < |sessions| && sessions[k].id == id && (forall j :: 0 <= j < k ==> sessions[j].id != id) ==>
      r == Some(sessions[k])
    ensures r.Some? ==> r.value in sessions
  {
    var p := (s: ChatSession) => HasId(s, id);
    forall k | 0 <= k < |sessions| && sessions[k].id == id && (forall j :: 0 <= j < k ==> sessions[j].id != id)
      ensures Find(sessions, p) == Some(sessions[k])
    {
      FindFirst(sessions, p, k);
    }
    match Find(sessions, p)
    case Some(s) => Some(s)
    case None => if sessions == [] then None else Some(sessions[0])
  }

  /** Updating by id, with an update that keeps the id, changes what the lookup finds to the update of it. */
  lemma UpdateThenActive(sessions: seq<ChatSession>, id: string, f: ChatSession -> ChatSession)
    requires forall s :: f(s).id == s.id
    requires exists k :: 0 <= k < |sessions| && sessions[k].id == id
    ensures ActiveIn(UpdateById(sessions, id, f), id) == Some(f(ActiveIn(sessions, id).value))
  {
    var p := (s: ChatSession) => HasId(s, id);
    var r := UpdateById(sessions, id, f);
    FirstIndexAgree(r, sessions, p);
  }

  /** The session after `sendMessage`'s update: the user's message, then the assistant's reply. */
  function Answered(session: ChatSession, user: ChatMessage, replyId: string, now: string): (r: ChatSession)
    ensures r.id == session.id && r.updatedAt == now
    ensures |r.messages| == |session.messages| + 2
    ensures r.messages == session.messages + [user, r.messages[|r.messages| - 1]]
    ensures r.messages[|r.messages| - 1].role == Assistant && r.messages[|r.messages| - 1].id == replyId
    ensures r.title == SessionTitle(session.title, user.content)
  {
    var messages := session.messages + [user];
    var coverage := GetCoverage(messages);
    var reply := ChatMessage(replyId, Assistant, ReplyText(coverage), now);
    session.(title := SessionTitle(session.title, user.content), updatedAt := now, messages := messages + [reply])
  }

  /** The reply reports the coverage of the conversation including the new message. */
  lemma AnsweredReports(session: ChatSession, user: ChatMessage, replyId: string, now: string)
    ensures var r := Answered(session, user, replyId, now);
      r.messages[|r.messages| - 1].content == ReplyText(GetCoverage(session.messages + [user]))
  {
  }

  /** `openInEditor`'s prompt: the user's messages joined by blank lines. */
  function EditorPrompt(messages: seq<ChatMessage>): (r: string)
    ensures IsBlank(r) <==> forall k :: 0 <= k < |messages| && IsUser(messages[k]) ==> IsBlank(messages[k].content)
  {
    var users := Filter(messages, IsUser);
    var texts := Map(users, Content);
    JoinBlank(texts, "\n\n");
    assert forall k :: 0 <= k < |messages| && IsUser(messages[k]) ==> messages[k] in users;
    Join(texts, "\n\n")
  }

  /** The title of the draft opened in the editor: `${full_name} Resume` for a truthy name, else "AI Generated Resume". */
  function GeneratedTitle(fullName: Json): (r: string)
    ensures !IsBlank(r)
  {
    if Truthy(fullName) then
      var t := ToJsString(fullName) + " Resume";
      assert !IsSpace(t[|t| - 1]);
      t
    else
      var t := "AI Generated Resume";
      assert !IsSpace(t[0]);
      t
  }

  /** The generated draft is stored under that title, trimmed: the storage fallback never applies. */
  lemma GeneratedTitleStored(fullName: Json, dataName: string)
    ensures DraftsStorage.TitleOrFallback(Some(GeneratedTitle(fullName)), dataName) == Trim(GeneratedTitle(fullName))
  {
  }

  /** A name with text gives `${name} Resume`, stored without the name's leading white space. */
  lemma GeneratedTitleNamed(name: string, dataName: string)
    requires !IsBlank(name)
    ensures GeneratedTitle(JStr(name)) == name + " Resume"
    ensures DraftsStorage.TitleOrFallback(Some(GeneratedTitle(JStr(name))), dataName) == TrimStart(name) + " Resume"
  {
    var t := name + " Resume";
    assert GeneratedTitle(JStr(name)) == t;
    assert !IsBlank(t) by {
      assert !IsSpace(t[|t| - 1]);
    }
    assert " Resume"[6] == 'e';
    TrimAppend(name, " Resume");
  }

  /** A missing or falsy name gives "AI Generated Resume", which is stored as it is. */
  lemma GeneratedTitleUnnamed(fullName: Json, dataName: string)
    requires !Truthy(fullName)
    ensures GeneratedTitle(fullName) == "AI Generated Resume"
    ensures DraftsStorage.TitleOrFallback(Some(GeneratedTitle(fullName)), dataName) == "AI Generated Resume"
  {
    var t := "AI Generated Resume";
    assert IsTrimmed(t) by {
      assert !IsSpace(t[0]) && !IsSpace(t[|t| - 1]);
    }
    TrimTrimmed(t);
  }

  /** The state of the chat page. */
  class ChatPage {
    var sessions: seq<ChatSession>
    var activeSessionId: string
    var input: string

    constructor()
      ensures sessions == [] && activeSessionId == "" && input == ""
    {
      sessions, activeSessionId, input := [], "", "";
    }

    /** `activeSession`: the session with the active id, else the first one. */
    function ActiveSession(): Option<ChatSession>
      reads this
    {
      ActiveIn(sessions, activeSessionId)
    }

    /**
     * The load effect: the stored list when it parses to a non-empty array (None stands for a
     * missing entry, a parse error or a non-array), else one new session; the first is active.
     */
    method Load(stored: Option<seq<ChatSession>>, first: ChatSession)
      modifies this
      ensures stored.Some? && stored.value != [] ==> sessions == stored.value && activeSessionId == stored.value[0].id
      ensures stored.None? || stored.value == [] ==> sessions == [first] && activeSessionId == first.id
      ensures input == old(input)
      ensures ActiveSession().Some? && ActiveSession().value.id == activeSessionId
    {
      if stored.None? || stored.value == [] {
        sessions := [first];
        activeSessionId := first.id;
      } else {
        sessions := stored.value;
        activeSessionId := stored.value[0].id;
      }
    }

    /** `startNewChat`: the new session goes in front and becomes active; the input is cleared. */
    method StartNewChat(next: ChatSession)
      modifies this
      ensures sessions == [next] + old(sessions) && activeSessionId == next.id && input == ""
      ensures ActiveSession() == Some(next)
    {
      sessions := [next] + sessions;
      activeSessionId := next.id;
      input := "";
      assert HasId(sessions[0], next.id);
    }

    /** `updateActiveSession(updater)`: every session carrying the active id is replaced by its update. */
    method UpdateActiveSession(updater: ChatSession -> ChatSession)
      modifies this
      ensures sessions == UpdateById(old(sessions), activeSessionId, updater)
      ensures activeSessionId == old(activeSessionId) && input == old(input)
    {
      sessions := UpdateById(sessions, activeSessionId, updater);
    }

    /**
     * `sendMessage`: nothing happens for a blank input or without a session; otherwise the input
     * is cleared and the active session gets the trimmed message and the assistant's reply.
     */
    method SendMessage(messageId: string, replyId: string, now: string)
      modifies this
      ensures IsBlank(old(input)) || old(sessions) == [] ==>
        sessions == old(sessions) && input == old(input) && activeSessionId == old(activeSessionId)
      ensures !IsBlank(old(input)) && old(sessions) != [] ==>
        && input == "" && activeSessionId == old(activeSessionId)
        && sessions == UpdateById(old(sessions), activeSessionId,
             s => Answered(s, ChatMessage(messageId, User, Trim(old(input)), now), replyId, now))
      ensures !IsBlank(old(input)) && old(sessions) != [] && old(ActiveSession()).value.id == activeSessionId ==>
        ActiveSession() == Some(Answered(old(ActiveSession()).value,
          ChatMessage(messageId, User, Trim(old(input)), now), replyId, now))
    {
      TrimEmptyIffBlank(input);
      if ActiveSession().None? || Trim(input) == "" {
        return;
      }
      var user := ChatMessage(messageId, User, Trim(input), now);
      input := "";
      var update := (s: ChatSession) => Answered(s, user, replyId, now);
      if ActiveSession().value.id == activeSessionId {
        UpdateThenActive(sessions, activeSessionId, update);
      }
      UpdateActiveSession(update);
    }
  }
}
