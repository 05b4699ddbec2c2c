/** The retention trim that `Dataset.save` runs after every save
    (backend/api/models.py:8-20), as functions of the dataset table, and
    what it guarantees. The trim counts and ranks every dataset in the
    table, whoever owns it. */
module Retention {
  import opened Tables

  /** How many datasets the trim keeps. */
  const KeepCount: nat := 5

  /** `ids_to_keep`: the ids of the first five rows ordered newest first. */
  function KeptIds(t: seq<Dataset>): set<nat>
  {
    var s := SortNewest(t);
    Ids(s[..if |s| < KeepCount then |s| else KeepCount])
  }

  /** The datasets the trim deletes, in table order: nothing when the table
      holds at most five rows, otherwise every row outside the keep list. */
  function Evicted(t: seq<Dataset>): seq<Dataset>
  {
    if |t| > KeepCount then Without(t, KeptIds(t)) else []
  }

  /** The table after the trim. */
  function Retained(t: seq<Dataset>): seq<Dataset>
  {
    Without(t, Ids(Evicted(t)))
  }

  /** The effects of deleting `ds` one after the other: for each dataset
      its file, then its row. */
  function EvictionJournal(ds: seq<Dataset>): (j: seq<Effect>)
    ensures |j| == 2 * |ds|
  {
    if ds == [] then []
    else EvictionJournal(ds[..|ds| - 1]) + [FileDeleted(ds[|ds| - 1].id), RowDeleted(ds[|ds| - 1].id)]
  }

  /** The table with every owner relabelled by `f`. */
  function Reowned(t: seq<Dataset>, f: nat -> nat): (r: seq<Dataset>)
    ensures |r| == |t|
    ensures forall k :: 0 <= k < |t| ==> r[k] == t[k].(owner := f(t[k].owner))
  {
    if t == [] then [] else [t[0].(owner := f(t[0].owner))] + Reowned(t[1..], f)
  }

  // ---------------------------------------------------------------------
  // What the keep list is

  lemma KeptIdsInTable(t: seq<Dataset>)
    ensures KeptIds(t) <= Ids(t)
  {
    var s := SortNewest(t);
    var n := if |s| < KeepCount then |s| else KeepCount;
    SortIds(t);
    forall x | x in KeptIds(t) ensures x in Ids(t) {
      var d :| d in s[..n] && d.id == x;
      assert d in s;
    }
  }

  /** With distinct ids the keep list has exactly min(5, |t|) ids. */
  lemma KeptIdsCount(t: seq<Dataset>)
    requires DistinctIds(t)
    ensures |KeptIds(t)| == if |t| < KeepCount then |t| else KeepCount
  {
    var s := SortNewest(t);
    var n := if |s| < KeepCount then |s| else KeepCount;
    assert |s| == |multiset(s)| == |multiset(t)| == |t|;
    SortDistinct(t);
    DistinctPrefix(s, n);
    DistinctIdsCount(s[..n]);
  }

  /** A row with a kept id comes before every row without one in the
      newest-first order, so it is at least as new. */
  lemma KeptIsNewer(t: seq<Dataset>, d: Dataset, e: Dataset)
    requires DistinctIds(t) && d in t && e in t
    requires d.id in KeptIds(t) && e.id !in KeptIds(t)
    ensures e.uploadedAt <= d.uploadedAt
  {
    var s := SortNewest(t);
    var n := if |s| < KeepCount then |s| else KeepCount;
    SortDistinct(t);
    assert d in multiset(s) && e in multiset(s);
    var p :| p in s[..n] && p.id == d.id;
    var i :| 0 <= i < n && s[..n][i] == p;
    SameIdSameRow(s, d, p);
    var j :| 0 <= j < |s| && s[j] == e;
    assert s[i] == d && i < j;
  }

  /** Membership in the trimmed table: a row stays exactly when the table
      holds at most five rows or its id is in the keep list. */
  lemma RetainedMembership(t: seq<Dataset>, d: Dataset)
    ensures d in Retained(t) <==> d in t && (|t| <= KeepCount || d.id in KeptIds(t))
  {
    if d in t && |t| > KeepCount && d.id !in KeptIds(t) {
      assert d in Evicted(t);
    }
  }

  lemma RetainedIds(t: seq<Dataset>)
    ensures Ids(Retained(t)) == if |t| <= KeepCount then Ids(t) else KeptIds(t)
  {
    WithoutIds(t, Ids(Evicted(t)));
    WithoutIds(t, KeptIds(t));
    if |t| > KeepCount {
      KeptIdsInTable(t);
    }
  }

  // ---------------------------------------------------------------------
  // The guarantees of the trim

  /** After a save that leaves more than five datasets, exactly five remain. */
  lemma RetainedCount(t: seq<Dataset>)
    requires DistinctIds(t)
    ensures |Retained(t)| == if |t| <= KeepCount then |t| else KeepCount
  {
    WithoutDistinct(t, Ids(Evicted(t)));
    DistinctIdsCount(Retained(t));
    RetainedIds(t);
    if |t| <= KeepCount {
      DistinctIdsCount(t);
    } else {
      KeptIdsCount(t);
    }
  }

  /** A table of at most five datasets is left as it is. */
  lemma SmallTableUntouched(t: seq<Dataset>)
    requires |t| <= KeepCount
    ensures Retained(t) == t
  {
    assert Ids(Evicted(t)) == {};
    WithoutNothing(t);
  }

  /** Trimming twice deletes nothing more than trimming once. */
  lemma RetainedIdempotent(t: seq<Dataset>)
    requires DistinctIds(t)
    ensures Retained(Retained(t)) == Retained(t)
  {
    RetainedCount(t);
    SmallTableUntouched(Retained(t));
  }

  lemma {:induction false} WithoutNothing(t: seq<Dataset>)
    ensures Without(t, {}) == t
  {
    if t != [] {
      WithoutNothing(t[1..]);
    }
  }

  /** The kept datasets are rows of the table, unchanged, and no dropped
      dataset is strictly newer than a kept one. */
  lemma RetainedAreNewest(t: seq<Dataset>)
    requires DistinctIds(t)
    ensures forall d :: d in Retained(t) ==> d in t
    ensures forall d, e :: d in Retained(t) && e in t && e !in Retained(t) ==>
      e.uploadedAt <= d.uploadedAt
  {
    forall d, e | d in Retained(t) && e in t && e !in Retained(t)
      ensures e.uploadedAt <= d.uploadedAt
    {
      RetainedMembership(t, d);
      RetainedMembership(t, e);
      KeptIsNewer(t, d, e);
    }
  }

  /** A dataset that is strictly newer than every other one survives the
      trim: the new upload of a save is kept when its timestamp is later
      than all the others. */
  lemma NewestSurvives(t: seq<Dataset>, n: Dataset)
    requires DistinctIds(t) && n in t
    requires forall e :: e in t && e != n ==> e.uploadedAt < n.uploadedAt
    ensures n in Retained(t)
  {
    RetainedCount(t);
    RetainedAreNewest(t);
    var d := Retained(t)[0];
    assert d in Retained(t);
    if d != n {
      assert d.uploadedAt < n.uploadedAt;
    }
  }

  /** A dataset with fewer than five other datasets at least as new as it
      survives the trim, however the tied rows are ranked: the new upload of
      a save, whose `auto_now_add` time is the latest or ties with the
      latest, is kept when fewer than five others share that time. */
  lemma FewTiesSurvive(t: seq<Dataset>, n: Dataset)
    requires DistinctIds(t) && n in t
    requires |Rivals(t, n)| < KeepCount
    ensures n in Retained(t)
  {
    RetainedMembership(t, n);
    if |t| > KeepCount && n.id !in KeptIds(t) {
      KeptIdsCount(t);
      KeptAreRivals(t, n);
      SubsetCount(KeptIds(t), Rivals(t, n));
      assert false;
    }
  }

  /** The ids of the other datasets at least as new as `n`. */
  function Rivals(t: seq<Dataset>, n: Dataset): set<nat>
  {
    set e | e in t && e != n && n.uploadedAt <= e.uploadedAt :: e.id
  }

  lemma KeptAreRivals(t: seq<Dataset>, n: Dataset)
    requires DistinctIds(t) && n in t && n.id !in KeptIds(t)
    ensures KeptIds(t) <= Rivals(t, n)
  {
    KeptIdsInTable(t);
    forall x | x in KeptIds(t) ensures x in Rivals(t, n) {
      var d :| d in t && d.id == x;
      KeptIsNewer(t, d, n);
    }
  }

  /** When every row has the same upload time, the ranking keeps table
      order: ties are broken by position, the earlier row first. */
  lemma {:induction false} SortTied(t: seq<Dataset>, v: int)
    requires forall k :: 0 <= k < |t| ==> t[k].uploadedAt == v
    ensures SortNewest(t) == t
  {
    if t != [] {
      SortTied(t[1..], v);
      assert t == [t[0]] + t[1..];
    }
  }

  /** A new row saved after five or more rows with the same upload time is
      evicted by its own save: it ranks behind them. */
  lemma TiedNewcomerEvicted(t: seq<Dataset>, x: Dataset)
    requires DistinctIds(t + [x]) && |t| >= KeepCount
    requires forall k :: 0 <= k < |t| ==> t[k].uploadedAt == x.uploadedAt
    ensures x in Evicted(t + [x])
    ensures forall d :: d in Retained(t + [x]) ==> d.id != x.id
  {
    var u := t + [x];
    assert x in u && |u| > KeepCount;
    TiedNewcomerNotKept(t, x);
  }

  lemma TiedNewcomerNotKept(t: seq<Dataset>, x: Dataset)
    requires DistinctIds(t + [x]) && |t| >= KeepCount
    requires forall k :: 0 <= k < |t| ==> t[k].uploadedAt == x.uploadedAt
    ensures x.id !in KeptIds(t + [x])
  {
    var u := t + [x];
    forall k | 0 <= k < |u| ensures u[k].uploadedAt == x.uploadedAt {
      if k < |t| {
        assert u[k] == t[k];
      }
    }
    SortTied(u, x.uploadedAt);
    assert KeptIds(u) == Ids(u[..KeepCount]);
    PrefixLacksId(u, KeepCount, |t|);
  }

  lemma PrefixLacksId(u: seq<Dataset>, n: nat, j: nat)
    requires DistinctIds(u) && n <= j < |u|
    ensures u[j].id !in Ids(u[..n])
  {
    forall d | d in u[..n] ensures d.id != u[j].id {
      var i :| 0 <= i < n && u[..n][i] == d;
      assert u[i] == d;
    }
  }

  /** The trimmed table never holds more than five ids. */
  lemma RetainedIdsCount(t: seq<Dataset>)
    requires DistinctIds(t)
    ensures |Ids(Retained(t))| <= KeepCount
  {
    RetainedCount(t);
    WithoutDistinct(t, Ids(Evicted(t)));
    DistinctIdsCount(Retained(t));
  }

  function NewerIds(t: seq<Dataset>, d: Dataset): set<nat>
  {
    set e | e in t && d.uploadedAt < e.uploadedAt :: e.id
  }

  /** If `d` is kept, so is every dataset strictly newer than it. */
  lemma NewerKept(t: seq<Dataset>, d: Dataset)
    requires DistinctIds(t)
    ensures d in Retained(t) ==> NewerIds(t, d) + {d.id} <= Ids(Retained(t))
  {
    if d in Retained(t) {
      RetainedAreNewest(t);
      forall x | x in NewerIds(t, d) ensures x in Ids(Retained(t)) {
        var e :| e in t && d.uploadedAt < e.uploadedAt && e.id == x;
      }
    }
  }

  /** A dataset older than five others is always evicted, whoever owns
      the datasets: all owners compete for the same five places. */
  lemma OlderThanFiveEvicted(t: seq<Dataset>, d: Dataset)
    requires DistinctIds(t) && d in t
    requires |NewerIds(t, d)| >= KeepCount
    ensures d !in Retained(t)
  {
    var newer := NewerIds(t, d);
    assert d.id !in newer by {
      if d.id in newer {
        var e :| e in t && d.uploadedAt < e.uploadedAt && e.id == d.id;
        SameIdSameRow(t, d, e);
      }
    }
    assert |newer + {d.id}| == |newer| + 1;
    NewerKept(t, d);
    RetainedIdsCount(t);
    if d in Retained(t) {
      SubsetCount(newer + {d.id}, Ids(Retained(t)));
    }
  }

  lemma {:induction false} SubsetCount<T>(a: set<T>, b: set<T>)
    requires a <= b
    ensures |a| <= |b|
  {
    if a != {} {
      var x :| x in a;
      SubsetCount(a - {x}, b - {x});
    }
  }

  /** Relabelling owners relabels the trimmed table and changes nothing
      else: the trim never looks at the owner. */
  lemma OwnerBlind(t: seq<Dataset>, f: nat -> nat)
    ensures Retained(Reowned(t, f)) == Reowned(Retained(t), f)
  {
    EvictedReowned(t, f);
    IdsReowned(Evicted(t), f);
    WithoutReowned(t, Ids(Evicted(t)), f);
  }

  lemma KeptIdsReowned(t: seq<Dataset>, f: nat -> nat)
    ensures KeptIds(Reowned(t, f)) == KeptIds(t)
  {
    SortReowned(t, f);
    PrefixIdsReowned(SortNewest(t), f);
  }

  lemma PrefixIdsReowned(s: seq<Dataset>, f: nat -> nat)
    ensures var n := if |s| < KeepCount then |s| else KeepCount;
            Ids(Reowned(s, f)[..n]) == Ids(s[..n])
  {
    var n := if |s| < KeepCount then |s| else KeepCount;
    ReownedPrefix(s, n, f);
    IdsReowned(s[..n], f);
  }

  lemma EvictedReowned(t: seq<Dataset>, f: nat -> nat)
    ensures Evicted(Reowned(t, f)) == Reowned(Evicted(t), f)
  {
    KeptIdsReowned(t, f);
    WithoutReowned(t, KeptIds(t), f);
  }

  lemma {:induction false} IdsReowned(t: seq<Dataset>, f: nat -> nat)
    ensures Ids(Reowned(t, f)) == Ids(t)
  {
    if t != [] {
      IdsReowned(t[1..], f);
      IdsCons(t[0], t[1..]);
      IdsCons(t[0].(owner := f(t[0].owner)), Reowned(t[1..], f));
      assert t == [t[0]] + t[1..];
    }
  }

  lemma IdsCons(x: Dataset, t: seq<Dataset>)
    ensures Ids([x] + t) == {x.id} + Ids(t)
  {
    assert forall d :: d in [x] + t <==> d == x || d in t;
  }

  lemma {:induction false} ReownedPrefix(s: seq<Dataset>, n: nat, f: nat -> nat)
    requires n <= |s|
    ensures n <= |Reowned(s, f)| && Reowned(s, f)[..n] == Reowned(s[..n], f)
  {
    if n > 0 {
      ReownedPrefix(s[1..], n - 1, f);
      assert s[..n][1..] == s[1..][..n - 1];
    }
  }

  lemma {:induction false} WithoutReowned(t: seq<Dataset>, ids: set<nat>, f: nat -> nat)
    ensures Without(Reowned(t, f), ids) == Reowned(Without(t, ids), f)
  {
    if t != [] {
      WithoutReowned(t[1..], ids, f);
      var u := Reowned(t, f);
      assert u[1..] == Reowned(t[1..], f);
      var head := if t[0].id in ids then [] else [t[0]];
      ReownedAppend(head, Without(t[1..], ids), f);
      assert Reowned(head, f) == if u[0].id in ids then [] else [u[0]];
    }
  }

  lemma ReownedAppend(a: seq<Dataset>, b: seq<Dataset>, f: nat -> nat)
    ensures Reowned(a + b, f) == Reowned(a, f) + Reowned(b, f)
  {
  }

  lemma {:induction false} InsertReowned(x: Dataset, t: seq<Dataset>, f: nat -> nat)
    ensures Insert(x.(owner := f(x.owner)), Reowned(t, f)) == Reowned(Insert(x, t), f)
  {
    if t != [] && x.uploadedAt < t[0].uploadedAt {
      InsertReowned(x, t[1..], f);
      assert Reowned(t, f)[1..] == Reowned(t[1..], f);
      assert Reowned([t[0]] + Insert(x, t[1..]), f)
          == [t[0].(owner := f(t[0].owner))] + Reowned(Insert(x, t[1..]), f);
    } else {
      assert Reowned([x] + t, f) == [x.(owner := f(x.owner))] + Reowned(t, f);
    }
  }

  lemma {:induction false} SortReowned(t: seq<Dataset>, f: nat -> nat)
    ensures SortNewest(Reowned(t, f)) == Reowned(SortNewest(t), f)
  {
    if t != [] {
      SortReowned(t[1..], f);
      assert Reowned(t, f)[1..] == Reowned(t[1..], f);
      InsertReowned(t[0], SortNewest(t[1..]), f);
    }
  }

  // ---------------------------------------------------------------------
  // The order of the side effects

  /** Each evicted dataset has its file deleted immediately before its row,
      and no other dataset is touched. */
  lemma {:induction false} FileBeforeRow(ds: seq<Dataset>)
    ensures forall k :: 0 <= k < |ds| ==>
      EvictionJournal(ds)[2 * k] == FileDeleted(ds[k].id) &&
      EvictionJournal(ds)[2 * k + 1] == RowDeleted(ds[k].id)
    ensures forall x :: x in EvictionJournal(ds) ==> x.id in Ids(ds)
  {
    if ds != [] {
      var init, last := ds[..|ds| - 1], ds[|ds| - 1];
      FileBeforeRow(init);
      var j, ji := EvictionJournal(ds), EvictionJournal(init);
      assert j == ji + [FileDeleted(last.id), RowDeleted(last.id)];
      forall k | 0 <= k < |ds|
        ensures j[2 * k] == FileDeleted(ds[k].id) && j[2 * k + 1] == RowDeleted(ds[k].id)
      {
        if k < |init| {
          assert ds[k] == init[k];
          assert j[2 * k] == ji[2 * k] && j[2 * k + 1] == ji[2 * k + 1];
        }
      }
      assert ds == init + [last];
      IdsOfSnoc(init, last);
      forall x | x in j ensures x.id in Ids(ds) {
        if x !in ji {
          assert x.id == last.id;
        }
      }
    }
  }
}
