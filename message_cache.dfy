/** The bounded cache of processed WhatsApp message ids: an ordered list and a
    set holding the same ids, capped at `MaxProcessedIds`, evicting the oldest. */
module MessageCache {

  const MaxProcessedIds: nat := 5000

  ghost predicate Distinct(ids: seq<string>) {
    forall a, b :: 0 <= a < b < |ids| ==> ids[a] != ids[b]
  }

  /** The list after `mark_message_processed(id)`. */
  function Remember(ids: seq<string>, id: string): (r: seq<string>)
    requires Distinct(ids) && |ids| <= MaxProcessedIds
    ensures Distinct(r) && |r| <= MaxProcessedIds
    ensures id == "" || id in ids ==> r == ids
    ensures id != "" ==> id in r
  {
    if id == "" || id in ids then ids
    else
      var appended := ids + [id];
      AppendDistinct(ids, id);
      if |appended| > MaxProcessedIds then
        assert appended[1..][|ids| - 1] == id;
        appended[1..]
      else
        appended
  }

  /** A new id goes to the end, after the ids that were kept in their order;
      exactly the oldest id is dropped, and only when the list was full. */
  lemma RememberEvictsOldest(ids: seq<string>, id: string)
    requires Distinct(ids) && |ids| <= MaxProcessedIds
    requires id != "" && id !in ids
    ensures var r := Remember(ids, id);
      && |r| >= 1 && r[|r| - 1] == id
      && (|ids| < MaxProcessedIds ==> r[..|r| - 1] == ids)
      && (|ids| == MaxProcessedIds ==> r[..|r| - 1] == ids[1..])
      && forall x :: x in r <==> x == id || (x in ids && !(|ids| == MaxProcessedIds && x == ids[0]))
  {
    var r := Remember(ids, id);
    if |ids| == MaxProcessedIds {
      assert r == ids[1..] + [id];
      assert forall x :: x in ids <==> x == ids[0] || x in ids[1..];
    } else {
      assert r == ids + [id];
    }
  }

  lemma AppendDistinct(ids: seq<string>, id: string)
    requires Distinct(ids) && id !in ids
    ensures Distinct(ids + [id])
    ensures ids != [] ==> Distinct(ids[1..] + [id]) && ids[0] !in ids[1..]
  {
    var a := ids + [id];
    forall x, y | 0 <= x < y < |a| ensures a[x] != a[y] {
      if y < |ids| { assert a[x] == ids[x] && a[y] == ids[y]; }
      else { assert a[x] == ids[x]; }
    }
    if ids != [] {
      assert Distinct(a[1..]);
      assert a[1..] == ids[1..] + [id];
      forall k | 0 <= k < |ids| - 1 ensures ids[1..][k] != ids[0] {
        assert ids[1..][k] == ids[k + 1];
      }
    }
  }

  class ProcessedIds {
    var ids: seq<string>
    var idSet: set<string>

    ghost predicate Valid()
      reads this
    {
      && idSet == (set x | x in ids)
      && Distinct(ids)
      && |ids| <= MaxProcessedIds
    }

    constructor ()
      ensures Valid() && ids == []
    {
      ids := [];
      idSet := {};
    }

    /** `mark_message_processed(id)`: a no-op for an empty or known id. */
    method Mark(id: string)
      requires Valid()
      modifies this
      ensures Valid()
      ensures ids == Remember(old(ids), id)
    {
      if id == "" {
        return;
      }
      if id in idSet {
        return;
      }
      ids := ids + [id];
      idSet := idSet + {id};
      if |ids| > MaxProcessedIds {
        var oldest := ids[0];
        assert oldest !in ids[1..];
        assert forall x :: x in ids <==> x == oldest || x in ids[1..];
        ids := ids[1..];
        idSet := idSet - {oldest};
      }
    }
  }
}
