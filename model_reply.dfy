/**
 * Turning the model's reply into a JSON value (frontend/app/api/ai/chat/route.ts): flatten the
 * message content to text, cut a JSON candidate out of it, parse it and unwrap a tool-call
 * envelope. JSON.parse and JSON.stringify are parameters; a `parse` that yields None is one
 * that throws.
 */
module ModelReply {
  import opened Wrappers
  import opened Strings
  import opened Seqs
  import opened JsonValue

  // ---------------------------------------------------------------------------------------
  // extractJson
  // ---------------------------------------------------------------------------------------

  /** The text has the shape the first branch takes whole. */
  predicate WholeObject(t: string) {
    t != [] && t[0] == '{' && t[|t| - 1] == '}'
  }

  /**
   * Group 1 of /```json\s*([\s\S]*?)\s*```/i matched against `t`. Only the first opener can
   * match (two openers never overlap, and a closer for a later opener also closes the first);
   * the lazy group ends at the first "```" after the opener, and the two `\s*` take exactly the
   * white space that trim would remove, so the group is the trimmed text between the two.
   */
  function FenceCapture(t: string): (r: Option<string>)
    ensures r.Some? ==> IsTrimmed(r.value)
  {
    match FindFrom(ToLower(t), "```json", 0)
    case None => None
    case Some(i) =>
      match FindFrom(t, "```", i + 7)
      case None => None
      case Some(c) => Some(Trim(t[i + 7..c]))
  }

  /** The second branch: a non-empty fence capture, trimmed once more. */
  function FencedJson(t: string): (r: Option<string>)
    ensures r.Some? ==> r.value != [] && IsTrimmed(r.value)
  {
    var fence := FenceCapture(t);
    if fence.Some? && fence.value != "" then Some(Trim(fence.value)) else None
  }

  /** The last two branches: from the first "{" to the last "}" when they are in that order, else everything. */
  function BraceSpan(t: string): (r: string)
    ensures |r| <= |t|
  {
    match (IndexOf(t, '{'), LastIndexOf(t, '}'))
    case (Some(first), Some(last)) => if last > first then t[first..last + 1] else t
    case _ => t
  }

  /** `extractJson`: the whole text, a fenced block, the outermost braces, or the text itself, in that order. */
  function ExtractJson(text: string): (r: string)
    ensures SliceOf(r, Trim(text))
    ensures WholeObject(Trim(text)) ==> r == Trim(text)
  {
    var t := Trim(text);
    if WholeObject(t) then
      assert t == t[0..|t|];
      t
    else
      match FencedJson(t)
      case Some(json) =>
        FencedJsonSlice(t);
        json
      case None =>
        BraceSpanSlice(t);
        BraceSpan(t)
  }

  /** The fence capture, when there is one, is a piece of the text. */
  lemma FenceSlice(t: string)
    requires FenceCapture(t).Some?
    ensures SliceOf(FenceCapture(t).value, t)
  {
    var i := FindFrom(ToLower(t), "```json", 0).value;
    assert i + 7 <= |t| by { assert OccursAt(ToLower(t), "```json", i); }
    var c := FindFrom(t, "```", i + 7).value;
    assert i + 7 <= c <= |t| by { assert OccursAt(t, "```", c); }
    var inner := t[i + 7..c];
    assert SliceOf(inner, t);
    TrimIsSlice(inner);
    SliceTrans(Trim(inner), inner, t);
  }

  lemma FencedJsonSlice(t: string)
    requires FencedJson(t).Some?
    ensures SliceOf(FencedJson(t).value, t)
  {
    FenceSlice(t);
    TrimTrimmed(FenceCapture(t).value);
  }

  lemma BraceSpanSlice(t: string)
    ensures SliceOf(BraceSpan(t), t)
  {
    assert t == t[0..|t|];
  }

  /** A reply that is one JSON object, give or take surrounding white space, is taken whole. */
  lemma ExtractWholeObject(text: string)
    requires WholeObject(Trim(text))
    ensures ExtractJson(text) == Trim(text)
  {
  }

  /** Without a backtick, lower-casing cannot make one, so there is no opener. */
  lemma NoOpener(t: string)
    requires '`' !in t
    ensures FindFrom(ToLower(t), "```json", 0) == None
  {
    var lower := ToLower(t);
    forall k: nat | k + 7 <= |lower| ensures !OccursAt(lower, "```json", k) {
      assert lower[k] == LowerChar(t[k]) != '`';
      assert lower[k..k + 7][0] == lower[k];
    }
  }

  lemma NoBacktickNoFence(t: string)
    requires '`' !in t
    ensures FenceCapture(t) == None && FencedJson(t) == None
  {
    NoOpener(t);
  }

  lemma FirstBrace(before: string, obj: string, after: string)
    requires '{' !in before
    requires |obj| >= 2 && obj[0] == '{'
    ensures IndexOf(before + obj + after, '{') == Some(|before|)
  {
    var t := before + obj + after;
    assert t[..|before|] == before;
    IndexOfAt(t, '{', |before|);
  }

  lemma LastBrace(before: string, obj: string, after: string)
    requires '}' !in after
    requires |obj| >= 2 && obj[|obj| - 1] == '}'
    ensures LastIndexOf(before + obj + after, '}') == Some(|before| + |obj| - 1)
  {
    var t := before + obj + after;
    var last := |before| + |obj| - 1;
    assert t[last + 1..] == after;
    LastIndexOfAt(t, '}', last);
  }

  /** Around a single object, the span from the first "{" to the last "}" is the object. */
  lemma BraceSpanWrapped(before: string, obj: string, after: string)
    requires '{' !in before && '}' !in after
    requires |obj| >= 2 && obj[0] == '{' && obj[|obj| - 1] == '}'
    ensures BraceSpan(before + obj + after) == obj
  {
    var t := before + obj + after;
    FirstBrace(before, obj, after);
    LastBrace(before, obj, after);
    assert t[|before|..|before| + |obj|] == obj;
  }

  /** On a trimmed text that is neither one whole object nor fenced, the brace span is the candidate. */
  lemma ExtractBraceCase(t: string)
    requires IsTrimmed(t) && !WholeObject(t) && FencedJson(t).None?
    ensures ExtractJson(t) == BraceSpan(t)
  {
    TrimTrimmed(t);
  }

  /** Prose around a single object: the candidate is the object, from its first "{" to its last "}". */
  lemma ExtractWrappedObject(before: string, obj: string, after: string)
    requires before != [] && '{' !in before && '}' !in after
    requires |obj| >= 2 && obj[0] == '{' && obj[|obj| - 1] == '}'
    requires '`' !in before + obj + after
    requires IsTrimmed(before + obj + after)
    ensures ExtractJson(before + obj + after) == obj
  {
    var t := before + obj + after;
    assert !WholeObject(t) by {
      assert t[0] == before[0];
    }
    NoBacktickNoFence(t);
    BraceSpanWrapped(before, obj, after);
    ExtractBraceCase(t);
  }

  /** The first "```json" of a fenced block is at its start. */
  lemma FenceOpensAtStart(body: string)
    ensures FindFrom(ToLower("```json\n" + body + "\n```"), "```json", 0) == Some(0)
  {
    var t := "```json\n" + body + "\n```";
    var lower := ToLower(t);
    assert t[..7] == "```json";
    forall k | 0 <= k < 7 ensures lower[k] == t[k] {
      assert lower[k] == LowerChar(t[k]);
    }
    assert lower[..7] == t[..7];
    assert OccursAt(lower, "```json", 0);
  }

  /** With no backtick in the body, the first closer after the opener is the final one. */
  lemma FenceClosesAtEnd(body: string)
    requires '`' !in body
    ensures var t := "```json\n" + body + "\n```"; FindFrom(t, "```", 7) == Some(|t| - 3)
  {
    var t := "```json\n" + body + "\n```";
    var close := |t| - 3;
    assert t[close..close + 3] == "```";
    assert OccursAt(t, "```", close);
    forall k: nat | 7 <= k < close ensures !OccursAt(t, "```", k) {
      if k == 7 || k == close - 1 {
        assert t[k] == '\n';
      } else {
        assert t[k] == body[k - 8];
      }
      assert t[k..k + 3][0] == t[k];
    }
  }

  /** The capture of a fenced block with a clean body is the body. */
  lemma FenceCaptureBlock(body: string)
    requires IsClean(body) && '`' !in body
    ensures FenceCapture("```json\n" + body + "\n```") == Some(body)
  {
    var t := "```json\n" + body + "\n```";
    FenceOpensAtStart(body);
    FenceClosesAtEnd(body);
    assert t[7..|t| - 3] == "\n" + body + "\n";
    assert IsBlank("\n");
    TrimPadded("\n", body, "\n");
  }

  /** On a trimmed text that is not one whole object, a non-empty fence capture is the candidate. */
  lemma ExtractFenceCase(t: string)
    requires IsTrimmed(t) && !WholeObject(t) && FencedJson(t).Some?
    ensures ExtractJson(t) == FencedJson(t).value
  {
    TrimTrimmed(t);
  }

  /** A fenced block with a clean body that holds no backtick yields exactly that body. */
  lemma ExtractFencedBlock(body: string)
    requires IsClean(body) && '`' !in body
    ensures ExtractJson("```json\n" + body + "\n```") == body
  {
    var t := "```json\n" + body + "\n```";
    assert IsTrimmed(t) && !WholeObject(t) by {
      assert t[0] == '`' && t[|t| - 1] == '`';
    }
    FenceCaptureBlock(body);
    TrimTrimmed(body);
    ExtractFenceCase(t);
  }

  /** With neither a fence nor an opening brace, the candidate is the trimmed text. */
  lemma ExtractNoCandidate(text: string)
    requires '`' !in text && '{' !in text
    ensures ExtractJson(text) == Trim(text)
  {
    var t := Trim(text);
    var a, b := TrimSlice(text);
    assert '`' !in t && '{' !in t by {
      forall k | 0 <= k < |t| ensures t[k] != '`' && t[k] != '{' {
        assert t[k] == text[a + k];
      }
    }
    NoBacktickNoFence(t);
  }

  // ---------------------------------------------------------------------------------------
  // contentToText and maybeParseJson
  // ---------------------------------------------------------------------------------------

  /** One chunk of an array reply: a string, the string `text` of an object, or nothing. */
  function ChunkText(chunk: Json): string {
    match chunk
    case JStr(s) => s
    case JObj(fields) => if "text" in fields && fields["text"].JStr? then fields["text"].s else ""
    case _ => ""
  }

  /** `contentToText`: a string as is, chunks joined by newlines, anything else serialised (null as ""). */
  function ContentToText(content: Json, stringify: Json -> string): (r: string)
    ensures content.JStr? ==> r == content.s
    ensures content.JArr? ==> forall k :: 0 <= k < |content.items| ==> Contains(r, ChunkText(content.items[k]))
    ensures content.JNull? ==> r == stringify(JStr(""))
  {
    match content
    case JStr(s) => s
    case JArr(chunks) =>
      var texts := Map(chunks, ChunkText);
      forall k | 0 <= k < |chunks|
        ensures Contains(Join(texts, "\n"), ChunkText(chunks[k]))
      {
        JoinContains(texts, "\n", k);
      }
      Join(texts, "\n")
    case _ => stringify(if content.JNull? then JStr("") else content)
  }

  /** A reply in string chunks comes back line by line: splitting the text on newlines recovers the chunks. */
  lemma ContentChunksRoundTrip(lines: seq<string>, stringify: Json -> string)
    requires |lines| >= 1 && forall k :: 0 <= k < |lines| ==> '\n' !in lines[k]
    ensures Split(ContentToText(JArr(Map(lines, (s: string) => JStr(s))), stringify), '\n') == lines
  {
    var texts := Map(Map(lines, (s: string) => JStr(s)), ChunkText);
    assert texts == lines;
    SplitJoin(lines, '\n');
  }

  /** `{name: "json", arguments}` with truthy arguments: the tool-call shape some models answer in. */
  predicate IsEnvelope(v: Json) {
    v.JObj? && Get(v, "name") == JStr("json") && Truthy(Get(v, "arguments"))
  }

  /** `maybeParseJson`: parse the candidate and unwrap a tool-call envelope; None when a parse throws. */
  function MaybeParseJson(text: string, parse: string -> Option<Json>): (r: Option<Json>)
    ensures parse(ExtractJson(text)).None? ==> r.None?
  {
    var parsed :- parse(ExtractJson(text));
    if IsEnvelope(parsed) then
      var args := Get(parsed, "arguments");
      if args.JStr? then parse(args.s) else Some(args)
    else Some(parsed)
  }

  /** An envelope is replaced by its arguments, which are parsed again when they are a string. */
  lemma EnvelopeUnwrapped(text: string, parse: string -> Option<Json>, args: Json)
    requires parse(ExtractJson(text)).Some?
    requires var p := parse(ExtractJson(text)).value; IsEnvelope(p) && Get(p, "arguments") == args
    ensures args.JStr? ==> MaybeParseJson(text, parse) == parse(args.s)
    ensures !args.JStr? ==> MaybeParseJson(text, parse) == Some(args) && args != JNull
  {
  }

  /** Anything but an envelope is returned exactly as parsed. */
  lemma NonEnvelopeUnchanged(text: string, parse: string -> Option<Json>)
    requires parse(ExtractJson(text)).Some? && !IsEnvelope(parse(ExtractJson(text)).value)
    ensures MaybeParseJson(text, parse) == parse(ExtractJson(text))
  {
  }

  /** `parsedJson?.data ?? parsedJson`: the `data` member, or the whole payload when it has none. */
  function PayloadData(payload: Json): (r: Json)
    ensures Get(payload, "data") != JNull ==> r == payload.fields["data"]
    ensures Get(payload, "data") == JNull ==> r == payload
  {
    var d := Get(payload, "data");
    if d.JNull? then payload else d
  }

}
