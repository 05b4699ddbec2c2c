/** The two tables of the backend (backend/api/models.py) and the queryset
    operations the rest of the model is built from: filtering rows out by id,
    cascading a delete to the records, and ordering by upload time. */
module Tables {

  /** One row of the Dataset table. `owner` is the user the upload view
      attaches; `hasFile` says whether the row's FileField is set. */
  datatype Dataset = Dataset(id: nat, owner: nat, uploadedAt: int, hasFile: bool)

  /** One row of the EquipmentRecord table; `dataset` is the foreign key. */
  datatype Record = Record(dataset: nat, name: string, kind: string,
                           flowrate: real, pressure: real, temperature: real)

  /** The side effects of an eviction, in the order they happen. */
  datatype Effect = FileDeleted(id: nat) | RowDeleted(id: nat)

  function Ids(t: seq<Dataset>): set<nat>
  {
    set d | d in t :: d.id
  }

  /** The primary key: no two rows share an id. */
  predicate DistinctIds(t: seq<Dataset>)
  {
    forall i, j :: 0 <= i < j < |t| ==> t[i].id != t[j].id
  }

  /** Rows are listed newest first: `order_by('-uploaded_at')`. */
  predicate NewestFirst(t: seq<Dataset>)
  {
    forall i, j :: 0 <= i < j < |t| ==> t[j].uploadedAt <= t[i].uploadedAt
  }

  // ---------------------------------------------------------------------
  // Filtering and cascading

  /** The rows whose id is not in `ids`, in table order (`exclude(id__in=ids)`). */
  function Without(t: seq<Dataset>, ids: set<nat>): (r: seq<Dataset>)
    ensures forall d :: d in r <==> d in t && d.id !in ids
    ensures |r| <= |t|
  {
    if t == [] then []
    else (if t[0].id in ids then [] else [t[0]]) + Without(t[1..], ids)
  }

  /** The table after `ds.file.delete()` on row `id`: its FileField is cleared. */
  function ClearFile(t: seq<Dataset>, id: nat): (r: seq<Dataset>)
    ensures |r| == |t|
    ensures forall k :: 0 <= k < |t| ==>
      r[k] == if t[k].id == id then t[k].(hasFile := false) else t[k]
  {
    if t == [] then []
    else [if t[0].id == id then t[0].(hasFile := false) else t[0]] + ClearFile(t[1..], id)
  }

  /** The records whose dataset is not in `ids`: what is left of the record
      table after the datasets `ids` are deleted (`on_delete=CASCADE`). */
  function RecordsOutside(rs: seq<Record>, ids: set<nat>): seq<Record>
  {
    if rs == [] then []
    else (if rs[0].dataset in ids then [] else [rs[0]]) + RecordsOutside(rs[1..], ids)
  }

  /** The cascade removes exactly the records of the deleted datasets, and
      keeps every other record as many times as it was there. */
  lemma {:induction false} RecordsOutsideCount(rs: seq<Record>, ids: set<nat>)
    ensures forall x :: multiset(RecordsOutside(rs, ids))[x] ==
                        if x.dataset in ids then 0 else multiset(rs)[x]
  {
    if rs != [] {
      RecordsOutsideCount(rs[1..], ids);
      assert rs == [rs[0]] + rs[1..];
    }
  }

  lemma RecordsOutsideSubset(rs: seq<Record>, ids: set<nat>)
    ensures forall x :: x in RecordsOutside(rs, ids) ==> x in rs && x.dataset !in ids
  {
    RecordsOutsideCount(rs, ids);
    forall x | x in RecordsOutside(rs, ids) ensures x in rs && x.dataset !in ids {
      assert x in multiset(RecordsOutside(rs, ids));
    }
  }

  /** The records of one dataset: `EquipmentRecord.objects.filter(dataset_id=id)`. */
  function RecordsOf(rs: seq<Record>, id: nat): seq<Record>
  {
    if rs == [] then []
    else (if rs[0].dataset == id then [rs[0]] else []) + RecordsOf(rs[1..], id)
  }

  /** The listing holds every record of the dataset, as many times as the
      table holds it, and nothing else. */
  lemma {:induction false} RecordsOfCount(rs: seq<Record>, id: nat)
    ensures forall x :: multiset(RecordsOf(rs, id))[x] ==
                        if x.dataset == id then multiset(rs)[x] else 0
  {
    if rs != [] {
      RecordsOfCount(rs[1..], id);
      assert rs == [rs[0]] + rs[1..];
    }
  }

  // ---------------------------------------------------------------------
  // Ordering by upload time. The database gives no tie-break; this
  // insertion sort keeps ties in table order, and every contract about it
  // is stated so that it holds for any order of ties.

  function Insert(x: Dataset, t: seq<Dataset>): (r: seq<Dataset>)
    ensures multiset(r) == multiset(t) + multiset{x}
  {
    if t == [] || t[0].uploadedAt <= x.uploadedAt then [x] + t
    else
      assert t == [t[0]] + t[1..];
      [t[0]] + Insert(x, t[1..])
  }

  lemma {:induction false} InsertNewestFirst(x: Dataset, t: seq<Dataset>)
    requires NewestFirst(t)
    ensures NewestFirst(Insert(x, t))
  {
    if t != [] && x.uploadedAt < t[0].uploadedAt {
      InsertNewestFirst(x, t[1..]);
      forall e | e in t[1..] ensures e.uploadedAt <= t[0].uploadedAt {
        var k :| 0 <= k < |t[1..]| && t[1..][k] == e;
        assert t[k + 1] == e;
      }
      InsertBelow(x, t[1..], t[0].uploadedAt);
      ConsNewestFirst(t[0], Insert(x, t[1..]));
    }
  }

  /** Inserting keeps every upload time at most `v`. */
  lemma InsertBelow(x: Dataset, t: seq<Dataset>, v: int)
    requires x.uploadedAt <= v
    requires forall e :: e in t ==> e.uploadedAt <= v
    ensures forall e :: e in Insert(x, t) ==> e.uploadedAt <= v
  {
    forall e | e in Insert(x, t) ensures e.uploadedAt <= v {
      assert e in multiset(Insert(x, t));
      assert e == x || e in multiset(t);
    }
  }

  lemma ConsNewestFirst(a: Dataset, s: seq<Dataset>)
    requires NewestFirst(s)
    requires forall e :: e in s ==> e.uploadedAt <= a.uploadedAt
    ensures NewestFirst([a] + s)
  {
    var r := [a] + s;
    forall i, j | 0 <= i < j < |r| ensures r[j].uploadedAt <= r[i].uploadedAt {
      if i == 0 {
        assert r[j] == s[j - 1];
      } else {
        assert r[i] == s[i - 1] && r[j] == s[j - 1];
      }
    }
  }

  /** The table ordered newest first. */
  function SortNewest(t: seq<Dataset>): (r: seq<Dataset>)
    ensures multiset(r) == multiset(t)
    ensures NewestFirst(r)
  {
    if t == [] then []
    else
      assert t == [t[0]] + t[1..];
      InsertNewestFirst(t[0], SortNewest(t[1..]));
      Insert(t[0], SortNewest(t[1..]))
  }

  // ---------------------------------------------------------------------
  // Lemmas about ids

  lemma IdsOfCons(x: Dataset, t: seq<Dataset>)
    ensures Ids([x] + t) == {x.id} + Ids(t)
  {
    assert forall d :: d in [x] + t <==> d == x || d in t;
  }

  lemma IdsOfSnoc(t: seq<Dataset>, x: Dataset)
    ensures Ids(t + [x]) == Ids(t) + {x.id}
  {
    assert forall d :: d in t + [x] <==> d in t || d == x;
  }

  lemma {:induction false} DistinctCons(x: Dataset, t: seq<Dataset>)
    ensures DistinctIds([x] + t) <==> x.id !in Ids(t) && DistinctIds(t)
  {
    var s := [x] + t;
    assert s[0] == x;
    if DistinctIds(s) {
      forall d | d in t ensures d.id != x.id {
        var k :| 0 <= k < |t| && t[k] == d;
        assert s[k + 1] == d;
      }
      forall i, j | 0 <= i < j < |t| ensures t[i].id != t[j].id {
        assert s[i + 1] == t[i] && s[j + 1] == t[j];
      }
    }
    if x.id !in Ids(t) && DistinctIds(t) {
      forall i, j | 0 <= i < j < |s| ensures s[i].id != s[j].id {
        if i == 0 {
          assert s[j] in t;
        } else {
          assert s[i] == t[i - 1] && s[j] == t[j - 1];
        }
      }
    }
  }

  /** With distinct ids, a row is determined by its id. */
  lemma SameIdSameRow(t: seq<Dataset>, d: Dataset, e: Dataset)
    requires DistinctIds(t) && d in t && e in t && d.id == e.id
    ensures d == e
  {
    var i :| 0 <= i < |t| && t[i] == d;
    var j :| 0 <= j < |t| && t[j] == e;
  }

  /** With distinct ids there are as many ids as rows. */
  lemma {:induction false} DistinctIdsCount(t: seq<Dataset>)
    requires DistinctIds(t)
    ensures |Ids(t)| == |t|
  {
    if t != [] {
      assert t == [t[0]] + t[1..];
      DistinctCons(t[0], t[1..]);
      IdsOfCons(t[0], t[1..]);
      DistinctIdsCount(t[1..]);
    }
  }

  lemma {:induction false} DistinctPrefix(t: seq<Dataset>, n: nat)
    requires DistinctIds(t) && n <= |t|
    ensures DistinctIds(t[..n])
  {
    assert forall i :: 0 <= i < n ==> t[..n][i] == t[i];
  }

  lemma {:induction false} WithoutIds(t: seq<Dataset>, ids: set<nat>)
    ensures Ids(Without(t, ids)) == Ids(t) - ids
  {
  }

  lemma {:induction false} WithoutDistinct(t: seq<Dataset>, ids: set<nat>)
    requires DistinctIds(t)
    ensures DistinctIds(Without(t, ids))
  {
    if t != [] {
      assert t == [t[0]] + t[1..];
      DistinctCons(t[0], t[1..]);
      WithoutDistinct(t[1..], ids);
      var rest := Without(t[1..], ids);
      if t[0].id !in ids {
        assert Ids(rest) <= Ids(t[1..]);
        DistinctCons(t[0], rest);
      }
    }
  }

  /** A permutation of rows with distinct ids has distinct ids. */
  lemma {:induction false} SortDistinct(t: seq<Dataset>)
    requires DistinctIds(t)
    ensures DistinctIds(SortNewest(t))
  {
    if t != [] {
      assert t == [t[0]] + t[1..];
      DistinctCons(t[0], t[1..]);
      SortDistinct(t[1..]);
      SortIds(t[1..]);
      InsertDistinct(t[0], SortNewest(t[1..]));
    }
  }

  lemma {:induction false} InsertDistinct(x: Dataset, t: seq<Dataset>)
    requires DistinctIds(t) && x.id !in Ids(t)
    ensures DistinctIds(Insert(x, t))
  {
    if t == [] || t[0].uploadedAt <= x.uploadedAt {
      DistinctCons(x, t);
    } else {
      assert t == [t[0]] + t[1..];
      DistinctCons(t[0], t[1..]);
      assert Ids(t[1..]) <= Ids(t);
      InsertDistinct(x, t[1..]);
      var rest := Insert(x, t[1..]);
      assert forall e :: e in rest ==> e == x || e in t[1..] by {
        forall e | e in rest ensures e == x || e in t[1..] {
          assert e in multiset(rest);
        }
      }
      DistinctCons(t[0], rest);
    }
  }

  /** Sorting keeps the rows, so it keeps their ids. */
  lemma SortIds(t: seq<Dataset>)
    ensures Ids(SortNewest(t)) == Ids(t)
  {
    var s := SortNewest(t);
    assert forall d :: d in s <==> d in multiset(s);
    assert forall d :: d in t <==> d in multiset(t);
  }
}
