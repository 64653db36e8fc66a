/**
 * The browser-side draft list (frontend/lib/drafts-storage.ts): drafts live in one
 * localStorage entry, read whole, changed and written back. The entry is the field `stored`
 * of a DraftStore; the UUID and the clock are parameters.
 */
module DraftsStorage {
  import opened Wrappers
  import opened Strings
  import opened Seqs
  import opened CvTypes

  datatype LocalDraft = LocalDraft(id: string, title: string, createdAt: string, updatedAt: string, data: CVData)

  const UntitledTitle: string := "Untitled Resume"

  /** What the storage entry holds: nothing (or ""), text JSON.parse rejects, a non-array, or a list of drafts. */
  datatype Stored =
    | Missing
    | Unreadable
    | NotAnArray
    | DraftList(drafts: seq<LocalDraft>)

  /** `title?.trim() || data.full_name?.trim() || 'Untitled Resume'`. */
  function TitleOrFallback(title: Option<string>, fullName: string): (r: string)
    ensures IsClean(r)
    ensures title.Some? && !IsBlank(title.value) ==> r == Trim(title.value)
    ensures (title.None? || IsBlank(title.value)) && !IsBlank(fullName) ==> r == Trim(fullName)
    ensures (title.None? || IsBlank(title.value)) && IsBlank(fullName) ==> r == UntitledTitle
  {
    var given := title.GetOr("");   // an absent title trims to undefined, which is as falsy as ""
    TrimEmptyIffBlank(given);
    TrimEmptyIffBlank(fullName);
    if Trim(given) != "" then Trim(given)
    else if Trim(fullName) != "" then Trim(fullName)
    else assert IsClean(UntitledTitle); UntitledTitle
  }

  /** A title the fallback produced is kept as it is by the next fallback. */
  lemma TitleOrFallbackIdempotent(title: Option<string>, fullName: string)
    ensures TitleOrFallback(Some(TitleOrFallback(title, fullName)), fullName) == TitleOrFallback(title, fullName)
  {
    var t := TitleOrFallback(title, fullName);
    TrimEmptyIffBlank(t);
    TrimTrimmed(t);
  }

  /** `createDraft(data, title)` with `id` from crypto.randomUUID and `now` from the clock. */
  function CreateDraft(data: CVData, title: Option<string>, id: string, now: string): (d: LocalDraft)
    ensures d.id == id && d.data == data && d.createdAt == now && d.updatedAt == now
    ensures IsClean(d.title) && d.title == TitleOrFallback(title, data.fullName)
  {
    LocalDraft(id, TitleOrFallback(title, data.fullName), now, now, data)
  }

  /** The record `upsertDraft` stores and returns: the draft with the title fallback applied and a new `updatedAt`. */
  function Normalized(draft: LocalDraft, now: string): (d: LocalDraft)
    ensures d.id == draft.id && d.createdAt == draft.createdAt && d.data == draft.data
    ensures d.updatedAt == now && IsClean(d.title)
  {
    draft.(title := TitleOrFallback(Some(draft.title), draft.data.fullName), updatedAt := now)
  }

  /** "Untitled Resume" is kept as it is by the fallback, whatever the name. */
  lemma UntitledKept(fullName: string)
    ensures TitleOrFallback(Some(UntitledTitle), fullName) == UntitledTitle
  {
    assert !IsSpace(UntitledTitle[0]) && !IsSpace(UntitledTitle[|UntitledTitle| - 1]);
    TrimTrimmed(UntitledTitle);
  }

  /** A draft just created, stored at the same instant, is stored exactly as created. */
  lemma CreatedIsNormalized(data: CVData, title: Option<string>, id: string, now: string)
    ensures Normalized(CreateDraft(data, title, id, now), now) == CreateDraft(data, title, id, now)
  {
    TitleOrFallbackIdempotent(title, data.fullName);
  }

  /** `getDrafts()`: the stored list, or [] without a window, without an entry, on a parse error or for a non-array. */
  function GetDrafts(hasWindow: bool, stored: Stored): (r: seq<LocalDraft>)
    ensures hasWindow && stored.DraftList? ==> r == stored.drafts
    ensures !hasWindow || !stored.DraftList? ==> r == []
  {
    if hasWindow && stored.DraftList? then stored.drafts else []
  }

  predicate HasId(d: LocalDraft, id: string) {
    d.id == id
  }

  /** `drafts.find((draft) => draft.id === id)`. */
  function DraftWithId(drafts: seq<LocalDraft>, id: string): (r: Option<LocalDraft>)
    ensures r.Some? <==> exists k :: 0 <= k < |drafts| && drafts[k].id == id
    ensures r.Some? ==> r.value.id == id && r.value in drafts
    ensures forall k :: 0 <= k < |drafts| && drafts[k].id == id && (forall j :: 0 <= j < k ==> drafts[j].id != id) ==>
      r == Some(drafts[k])
  {
    var p := (d: LocalDraft) => HasId(d, id);
    forall k | 0 <= k < |drafts| && drafts[k].id == id && (forall j :: 0 <= j < k ==> drafts[j].id != id)
      ensures Find(drafts, p) == Some(drafts[k])
    {
      FindFirst(drafts, p, k);
    }
    Find(drafts, p)
  }

  /** The list after `upsertDraft` stores `d`: the first entry with its id replaced in place, else `d` put in front. */
  function Upserted(drafts: seq<LocalDraft>, d: LocalDraft): (r: seq<LocalDraft>)
    ensures d in r
    ensures forall x :: x in r ==> x == d || x in drafts
    ensures |r| == |drafts| <==> exists k :: 0 <= k < |drafts| && drafts[k].id == d.id
    ensures |r| == |drafts| || |r| == |drafts| + 1
  {
    match FirstIndex(drafts, x => HasId(x, d.id))
    case Some(i) =>
      assert drafts[i := d][i] == d;
      drafts[i := d]
    case None =>
      assert forall k :: 0 <= k < |drafts| ==> drafts[k].id != d.id by {
        forall k | 0 <= k < |drafts| ensures drafts[k].id != d.id {
          assert !HasId(drafts[k], d.id);
        }
      }
      [d] + drafts
  }

  /** With the id present, the first entry carrying it is replaced; the length and every other entry stay. */
  lemma UpsertReplaces(drafts: seq<LocalDraft>, d: LocalDraft, i: nat)
    requires i < |drafts| && drafts[i].id == d.id
    requires forall k :: 0 <= k < i ==> drafts[k].id != d.id
    ensures var r := Upserted(drafts, d);
      |r| == |drafts| && r[i] == d && forall k :: 0 <= k < |r| && k != i ==> r[k] == drafts[k]
  {
    assert HasId(drafts[i], d.id);
    assert forall k :: 0 <= k < i ==> !HasId(drafts[k], d.id);
  }

  /** With the id absent, the draft goes in front and the rest follows unchanged. */
  lemma UpsertPrepends(drafts: seq<LocalDraft>, d: LocalDraft)
    requires forall k :: 0 <= k < |drafts| ==> drafts[k].id != d.id
    ensures var r := Upserted(drafts, d); |r| == |drafts| + 1 && r[0] == d && r[1..] == drafts
  {
    assert forall k :: 0 <= k < |drafts| ==> !HasId(drafts[k], d.id);
    assert ([d] + drafts)[1..] == drafts;
  }

  /** Looking the id up right after an upsert finds the stored record: lookup returns the first match. */
  lemma UpsertThenFind(drafts: seq<LocalDraft>, d: LocalDraft)
    ensures DraftWithId(Upserted(drafts, d), d.id) == Some(d)
  {
    var r := Upserted(drafts, d);
    var p := (x: LocalDraft) => HasId(x, d.id);
    match FirstIndex(drafts, p)
    case Some(i) =>
      assert r == drafts[i := d];
      assert p(r[i]);
      assert forall k :: 0 <= k < i ==> r[k] == drafts[k];
    case None =>
      assert r == [d] + drafts;
      assert FirstIndex(r, p) == Some(0);
  }

  /** An upsert does not change what a lookup of any other id finds. */
  lemma UpsertKeepsOthers(drafts: seq<LocalDraft>, d: LocalDraft, id: string)
    requires id != d.id
    ensures DraftWithId(Upserted(drafts, d), id) == DraftWithId(drafts, id)
  {
    var r := Upserted(drafts, d);
    var p := (x: LocalDraft) => HasId(x, id);
    match FirstIndex(drafts, x => HasId(x, d.id))
    case Some(i) =>
      assert r == drafts[i := d];
      FirstIndexAgree(drafts[i := d], drafts, p);
    case None =>
      assert r == [d] + drafts;
      assert r[1..] == drafts;
      assert !p(r[0]);
  }

  /** The filter `deleteDraft(id)` applies: keep the drafts with another id. */
  function Without(id: string): LocalDraft -> bool {
    d => !HasId(d, id)
  }

  /** The list after `deleteDraft(id)`. */
  function Deleted(drafts: seq<LocalDraft>, id: string): (r: seq<LocalDraft>)
    ensures |r| <= |drafts|
    ensures forall x :: x in r <==> x in drafts && x.id != id
    ensures |r| == CountTrue(Map(drafts, Without(id)))
  {
    FilterCount(drafts, Without(id));
    Filter(drafts, Without(id))
  }

  lemma DeletedHasNoId(drafts: seq<LocalDraft>, id: string)
    ensures forall k :: 0 <= k < |Deleted(drafts, id)| ==> Deleted(drafts, id)[k].id != id
  {
    var r := Deleted(drafts, id);
    forall k | 0 <= k < |r| ensures r[k].id != id {
      assert Without(id)(r[k]);
    }
  }

  lemma DeletedKeepsOthers(drafts: seq<LocalDraft>, id: string)
    ensures Subseq(Deleted(drafts, id), drafts)
    ensures forall d :: d in drafts && d.id != id ==> d in Deleted(drafts, id)
  {
    FilterIsSubseq(drafts, Without(id));
    forall d | d in drafts && d.id != id ensures d in Deleted(drafts, id) {
      assert Without(id)(d);
    }
  }

  lemma DeletedMissing(drafts: seq<LocalDraft>, id: string)
    requires forall k :: 0 <= k < |drafts| ==> drafts[k].id != id
    ensures Deleted(drafts, id) == drafts
  {
    forall k | 0 <= k < |drafts| ensures Without(id)(drafts[k]) {
    }
    FilterKeepsAll(drafts, Without(id));
  }

  /** Every entry with the id is gone, the others keep their order, and a missing id changes nothing. */
  lemma DeleteRemoves(drafts: seq<LocalDraft>, id: string)
    ensures DraftWithId(Deleted(drafts, id), id) == None
    ensures Subseq(Deleted(drafts, id), drafts)
    ensures forall d :: d in drafts && d.id != id ==> d in Deleted(drafts, id)
    ensures (forall k :: 0 <= k < |drafts| ==> drafts[k].id != id) ==> Deleted(drafts, id) == drafts
  {
    DeletedHasNoId(drafts, id);
    DeletedKeepsOthers(drafts, id);
    if forall k :: 0 <= k < |drafts| ==> drafts[k].id != id {
      DeletedMissing(drafts, id);
    }
  }

  /** The localStorage entry behind `getDrafts`, `saveDrafts`, `upsertDraft`, `getDraftById` and `deleteDraft`. */
  class DraftStore {
    /** `typeof window !== 'undefined'`: false while rendering on the server. */
    const hasWindow: bool
    var stored: Stored

    constructor(hasWindow: bool, stored: Stored)
      ensures this.hasWindow == hasWindow && this.stored == stored
    {
      this.hasWindow := hasWindow;
      this.stored := stored;
    }

    function Drafts(): seq<LocalDraft>
      reads this
    {
      GetDrafts(hasWindow, stored)
    }

    /** `getDraftById(id)`. */
    function DraftById(id: string): Option<LocalDraft>
      reads this
    {
      DraftWithId(Drafts(), id)
    }

    /** `saveDrafts(drafts)`: writes the list, unless there is no window. */
    method SaveDrafts(drafts: seq<LocalDraft>)
      modifies this
      ensures hasWindow ==> stored == DraftList(drafts)
      ensures !hasWindow ==> stored == old(stored)
    {
      if hasWindow {
        stored := DraftList(drafts);
      }
    }

    /**
     * `upsertDraft(draft)`: read the list (an unreadable entry reads as []), replace the entry
     * with the draft's id or put the draft in front, write the list back and return what was stored.
     */
    method UpsertDraft(draft: LocalDraft, now: string) returns (saved: LocalDraft)
      modifies this
      ensures saved == Normalized(draft, now)
      ensures hasWindow ==> stored == DraftList(Upserted(old(Drafts()), saved))
      ensures hasWindow ==> DraftById(draft.id) == Some(saved)
      ensures !hasWindow ==> stored == old(stored)
    {
      var drafts := GetDrafts(hasWindow, stored);
      var existingIndex := FirstIndex(drafts, x => HasId(x, draft.id));
      saved := Normalized(draft, now);
      if existingIndex.Some? {
        drafts := drafts[existingIndex.value := saved];
      } else {
        drafts := [saved] + drafts;
      }
      assert drafts == Upserted(old(Drafts()), saved);
      SaveDrafts(drafts);
      UpsertThenFind(old(Drafts()), saved);
    }

    /** `deleteDraft(id)`: write back the list without the entries carrying `id`. */
    method DeleteDraft(id: string)
      modifies this
      ensures hasWindow ==> stored == DraftList(Deleted(old(Drafts()), id))
      ensures hasWindow ==> DraftById(id) == None
      ensures !hasWindow ==> stored == old(stored)
    {
      var drafts := Deleted(GetDrafts(hasWindow, stored), id);
      SaveDrafts(drafts);
      DeleteRemoves(old(Drafts()), id);
    }
  }
}
