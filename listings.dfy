/** The three list views of backend/api/views.py: the caller's datasets,
    every dataset, and the records of one dataset. */
module Listings {
  import opened Tables

  /** `Dataset.objects.filter(user=owner)`, in table order. */
  function OwnedBy(t: seq<Dataset>, owner: nat): (r: seq<Dataset>)
    ensures forall d :: multiset(r)[d] == if d.owner == owner then multiset(t)[d] else 0
  {
    if t == [] then []
    else
      assert t == [t[0]] + t[1..];
      (if t[0].owner == owner then [t[0]] else []) + OwnedBy(t[1..], owner)
  }

  /** `DatasetListView`: the caller's datasets, newest first. Every dataset
      of the caller is listed once, and no one else's. */
  function UserDatasets(t: seq<Dataset>, owner: nat): (r: seq<Dataset>)
    ensures NewestFirst(r)
    ensures forall d :: multiset(r)[d] == if d.owner == owner then multiset(t)[d] else 0
    ensures forall d :: d in r ==> d.owner == owner
  {
    var r := SortNewest(OwnedBy(t, owner));
    assert forall d :: d in r ==> d in multiset(r);
    r
  }

  /** `GlobalDatasetListView`: every dataset of every owner, newest first. */
  function AllDatasets(t: seq<Dataset>): (r: seq<Dataset>)
    ensures NewestFirst(r)
    ensures multiset(r) == multiset(t)
  {
    SortNewest(t)
  }

  /** `DatasetRecordsView`: every record of dataset `id`, whoever asks; the
      view takes no caller, so it makes no ownership check. */
  function DatasetRecords(rs: seq<Record>, id: nat): (r: seq<Record>)
    ensures forall x :: multiset(r)[x] == if x.dataset == id then multiset(rs)[x] else 0
  {
    RecordsOfCount(rs, id);
    RecordsOf(rs, id)
  }
}
