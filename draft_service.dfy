/**
 * The backend's draft store (backend/app/services/draft_service.py): every call reads the
 * whole JSON file, changes the list and writes it back. The file's contents are the field
 * `drafts` of a DraftService, and `writes` counts how often the file has been rewritten.
 */
module DraftService {
  import opened Wrappers
  import opened Seqs
  import opened CvTypes

  /**
   * A CVDraft as the dictionary `draft.json()` produces; `lastModified` is the ISO timestamp.
   * `data` reuses the frontend's CVData, whose skills are titled categories. The backend's CVDraft
   * (backend/app/schemas/cv.py:40-58) validates `data` against its own CVData, whose
   * `technical_skills` is the four fixed lists of backend/app/schemas/cv.py:5-9. The store never
   * looks inside `data`, so no operation here depends on which of the two shapes it has.
   */
  datatype ServiceDraft = ServiceDraft(id: string, templateId: string, lastModified: string, data: CVData)

  predicate HasId(d: ServiceDraft, id: string) {
    d.id == id
  }

  /** The list after `save_draft(d)`: the first entry with its id replaced in place, else `d` appended. */
  function Saved(drafts: seq<ServiceDraft>, d: ServiceDraft): (r: seq<ServiceDraft>)
    ensures d in r
    ensures forall x :: x in r ==> x == d || x in drafts
    ensures |r| == |drafts| <==> exists k :: 0 <= k < |drafts| && drafts[k].id == d.id
    ensures |r| == |drafts| || |r| == |drafts| + 1
  {
    match FirstIndex(drafts, x => HasId(x, d.id))
    case Some(i) =>
      assert drafts[i := d][i] == d;
      drafts[i := d]
    case None =>
      assert forall k :: 0 <= k < |drafts| ==> drafts[k].id != d.id by {
        forall k | 0 <= k < |drafts| ensures drafts[k].id != d.id {
          assert !HasId(drafts[k], d.id);
        }
      }
      drafts + [d]
  }

  /** The comprehension's condition in `delete_draft(id)`: the draft has another id. */
  function Without(id: string): ServiceDraft -> bool {
    d => !HasId(d, id)
  }

  /** The list `delete_draft(id)` builds: the drafts whose id differs, in their order. */
  function Removed(drafts: seq<ServiceDraft>, id: string): (r: seq<ServiceDraft>)
    ensures |r| <= |drafts|
    ensures forall x :: x in r <==> x in drafts && x.id != id
    ensures |r| == CountTrue(Map(drafts, Without(id)))
  {
    FilterCount(drafts, Without(id));
    Filter(drafts, Without(id))
  }

  /** With the id present, the first entry carrying it is replaced; the length and every other entry stay. */
  lemma SavedReplaces(drafts: seq<ServiceDraft>, d: ServiceDraft, i: nat)
    requires i < |drafts| && drafts[i].id == d.id
    requires forall k :: 0 <= k < i ==> drafts[k].id != d.id
    ensures var r := Saved(drafts, d);
      |r| == |drafts| && r[i] == d && forall k :: 0 <= k < |r| && k != i ==> r[k] == drafts[k]
  {
    assert HasId(drafts[i], d.id);
    assert forall k :: 0 <= k < i ==> !HasId(drafts[k], d.id);
  }

  /** With the id absent, the draft goes at the end, after the unchanged list (the browser store puts it in front). */
  lemma SavedAppends(drafts: seq<ServiceDraft>, d: ServiceDraft)
    requires forall k :: 0 <= k < |drafts| ==> drafts[k].id != d.id
    ensures var r := Saved(drafts, d); |r| == |drafts| + 1 && r[|drafts|] == d && r[..|drafts|] == drafts
  {
    assert forall k :: 0 <= k < |drafts| ==> !HasId(drafts[k], d.id);
    assert (drafts + [d])[..|drafts|] == drafts;
  }

  /** Looking the id up after a save finds the saved draft: lookup returns the first match. */
  lemma SavedThenFound(drafts: seq<ServiceDraft>, d: ServiceDraft)
    ensures Find(Saved(drafts, d), x => HasId(x, d.id)) == Some(d)
  {
    var r := Saved(drafts, d);
    var p := (x: ServiceDraft) => HasId(x, d.id);
    match FirstIndex(drafts, p)
    case Some(i) =>
      assert r == drafts[i := d];
      assert p(r[i]);
      assert forall k :: 0 <= k < i ==> r[k] == drafts[k];
    case None =>
      assert r == drafts + [d];
      assert p(r[|drafts|]);
      assert forall k :: 0 <= k < |drafts| ==> r[k] == drafts[k];
  }

  /** A save does not change what a lookup of any other id finds. */
  lemma SavedKeepsOthers(drafts: seq<ServiceDraft>, d: ServiceDraft, id: string)
    requires id != d.id
    ensures Find(Saved(drafts, d), x => HasId(x, id)) == Find(drafts, x => HasId(x, id))
  {
    var p := (x: ServiceDraft) => HasId(x, id);
    match FirstIndex(drafts, x => HasId(x, d.id))
    case Some(i) =>
      FirstIndexAgree(drafts[i := d], drafts, p);
    case None =>
      var r := drafts + [d];
      match FirstIndex(drafts, p)
      case Some(j) =>
        assert p(r[j]);
        assert forall k :: 0 <= k < j ==> r[k] == drafts[k];
      case None =>
        assert forall k :: 0 <= k < |r| ==> !p(r[k]);
  }

  lemma RemovedHasNoId(drafts: seq<ServiceDraft>, id: string)
    ensures forall k :: 0 <= k < |Removed(drafts, id)| ==> Removed(drafts, id)[k].id != id
  {
    var r := Removed(drafts, id);
    forall k | 0 <= k < |r| ensures r[k].id != id {
      assert Without(id)(r[k]);
    }
  }

  lemma RemovedKeepsOthers(drafts: seq<ServiceDraft>, id: string)
    ensures Subseq(Removed(drafts, id), drafts)
    ensures forall d :: d in drafts && d.id != id ==> d in Removed(drafts, id)
  {
    FilterIsSubseq(drafts, Without(id));
    forall d | d in drafts && d.id != id ensures d in Removed(drafts, id) {
      assert Without(id)(d);
    }
  }

  lemma RemovedMissing(drafts: seq<ServiceDraft>, id: string)
    requires forall k :: 0 <= k < |drafts| ==> drafts[k].id != id
    ensures Removed(drafts, id) == drafts
  {
    forall k | 0 <= k < |drafts| ensures Without(id)(drafts[k]) {
    }
    FilterKeepsAll(drafts, Without(id));
  }

  /** Every entry with the id is gone, the others keep their order, and a missing id changes nothing. */
  lemma RemovedRemoves(drafts: seq<ServiceDraft>, id: string)
    ensures Find(Removed(drafts, id), x => HasId(x, id)) == None
    ensures Subseq(Removed(drafts, id), drafts)
    ensures forall d :: d in drafts && d.id != id ==> d in Removed(drafts, id)
    ensures (forall k :: 0 <= k < |drafts| ==> drafts[k].id != id) ==> Removed(drafts, id) == drafts
  {
    RemovedHasNoId(drafts, id);
    RemovedKeepsOthers(drafts, id);
    if forall k :: 0 <= k < |drafts| ==> drafts[k].id != id {
      RemovedMissing(drafts, id);
    }
  }

  class DraftStore {
    /** The list stored in drafts.json. */
    var drafts: seq<ServiceDraft>
    /** How many times drafts.json has been written. */
    var writes: nat

    /** Module start-up: a missing file is created holding []. */
    constructor(existing: Option<seq<ServiceDraft>>)
      ensures drafts == (if existing.Some? then existing.value else [])
      ensures writes == (if existing.Some? then 0 else 1)
    {
      if existing.Some? {
        drafts, writes := existing.value, 0;
      } else {
        drafts, writes := [], 1;
      }
    }

    /** `get_draft_by_id(draft_id)`: the first draft carrying the id, else None. */
    method GetDraftById(id: string) returns (r: Option<ServiceDraft>)
      ensures r == Find(drafts, x => HasId(x, id))
      ensures r.Some? <==> exists k :: 0 <= k < |drafts| && drafts[k].id == id
      ensures r.Some? ==> r.value.id == id
    {
      var i := 0;
      while i < |drafts|
        invariant i <= |drafts|
        invariant forall k :: 0 <= k < i ==> drafts[k].id != id
      {
        if drafts[i].id == id {
          return Some(drafts[i]);
        }
        i := i + 1;
      }
      return None;
    }

    /** `save_draft(draft)`: replace the first entry with the draft's id or append, write the file, return the draft. */
    method SaveDraft(draft: ServiceDraft) returns (saved: ServiceDraft)
      modifies this
      ensures saved == draft
      ensures drafts == Saved(old(drafts), draft)
      ensures writes == old(writes) + 1
      ensures Find(drafts, x => HasId(x, draft.id)) == Some(saved)
    {
      var index := -1;
      var i := 0;
      while i < |drafts|
        invariant i <= |drafts|
        invariant index == -1
        invariant forall k :: 0 <= k < i ==> drafts[k].id != draft.id
      {
        if drafts[i].id == draft.id {
          index := i;
          break;
        }
        i := i + 1;
      }
      assert HasId(draft, draft.id);
      if index != -1 {
        drafts := drafts[index := draft];
      } else {
        drafts := drafts + [draft];
      }
      writes := writes + 1;
      saved := draft;
      SavedThenFound(old(drafts), draft);
    }

    /** `delete_draft(draft_id)`: False, with the file untouched, when no draft has the id; else the list without them. */
    method DeleteDraft(id: string) returns (deleted: bool)
      modifies this
      ensures deleted <==> exists k :: 0 <= k < |old(drafts)| && old(drafts)[k].id == id
      ensures deleted ==> drafts == Removed(old(drafts), id) && writes == old(writes) + 1
      ensures !deleted ==> drafts == old(drafts) && writes == old(writes)
    {
      var initialLength := |drafts|;
      var kept := Removed(drafts, id);
      FilterSameLengthIffAll(drafts, Without(id));
      if |kept| == initialLength {
        return false;
      }
      drafts := kept;
      writes := writes + 1;
      return true;
    }
  }
}
