/** The database and the file storage the backend writes to, with the
    in-place operations of backend/api/models.py: inserting a dataset,
    deleting its file, deleting its row (cascading to its records), and the
    retention trim that `Dataset.save` runs after every insert. */
module Database {
  import opened Tables
  import opened Retention

  /** Ids are unique and below `nextId`, every record points to an existing
      dataset, and a row whose file field is set has its file on disk. */
  ghost predicate Consistent(datasets: seq<Dataset>, records: seq<Record>, storage: set<nat>, nextId: nat)
  {
    DistinctIds(datasets) &&
    (forall d :: d in datasets ==> d.id < nextId) &&
    (forall x :: x in storage ==> x < nextId) &&
    (forall r :: r in records ==> r.dataset in Ids(datasets)) &&
    (forall d :: d in datasets && d.hasFile ==> d.id in storage)
  }

  class Store {
    /** The Dataset table, in table order. */
    var datasets: seq<Dataset>
    /** The EquipmentRecord table. */
    var records: seq<Record>
    /** The ids of the datasets whose uploaded file is on disk. */
    var storage: set<nat>
    /** Every file and row deletion, in the order it happened. */
    var journal: seq<Effect>
    /** The id the next inserted dataset gets (auto-increment). */
    var nextId: nat

    ghost predicate Valid()
      reads this
    {
      Consistent(datasets, records, storage, nextId)
    }

    constructor ()
      ensures Valid()
      ensures datasets == [] && records == [] && storage == {} && journal == [] && nextId == 0
    {
      datasets, records, storage, journal, nextId := [], [], {}, [], 0;
    }

    /** `super().save()` for a new dataset: the row gets the next id, the
        owner, the creation time `now` (`auto_now_add`) and its stored file. */
    method Insert(owner: nat, now: int) returns (id: nat)
      requires Valid()
      modifies this
      ensures Valid()
      ensures id == old(nextId) && nextId == id + 1
      ensures datasets == old(datasets) + [Dataset(id, owner, now, true)]
      ensures id !in old(storage) && storage == old(storage) + {id}
      ensures records == old(records) && journal == old(journal)
    {
      id := nextId;
      InsertKeeps(datasets, records, storage, nextId, owner, now);
      datasets := datasets + [Dataset(id, owner, now, true)];
      storage := storage + {id};
      nextId := nextId + 1;
    }

    /** `ds.file.delete()`: the file leaves the storage and the row's file
        field is cleared. */
    method DeleteFile(id: nat)
      requires Valid()
      modifies this
      ensures Valid()
      ensures datasets == ClearFile(old(datasets), id)
      ensures storage == old(storage) - {id}
      ensures journal == old(journal) + [FileDeleted(id)]
      ensures records == old(records) && nextId == old(nextId)
    {
      ClearFileKeeps(datasets, records, storage, nextId, id);
      datasets := ClearFile(datasets, id);
      storage := storage - {id};
      journal := journal + [FileDeleted(id)];
    }

    /** `ds.delete()`: the row goes, and with it every record that points to
        it (`on_delete=CASCADE`). The file is not touched. */
    method DeleteRow(id: nat)
      requires Valid()
      modifies this
      ensures Valid()
      ensures datasets == Without(old(datasets), {id})
      ensures records == RecordsOutside(old(records), {id})
      ensures journal == old(journal) + [RowDeleted(id)]
      ensures storage == old(storage) && nextId == old(nextId)
    {
      DeleteRowKeeps(datasets, records, storage, nextId, id);
      datasets := Without(datasets, {id});
      records := RecordsOutside(records, {id});
      journal := journal + [RowDeleted(id)];
    }

    /** One pass of the eviction loop: `ds.file.delete()` then `ds.delete()`. */
    method Evict(id: nat)
      requires Valid()
      modifies this
      ensures Valid()
      ensures datasets == Without(old(datasets), {id})
      ensures records == RecordsOutside(old(records), {id})
      ensures storage == old(storage) - {id}
      ensures journal == old(journal) + [FileDeleted(id), RowDeleted(id)]
      ensures nextId == old(nextId)
    {
      ghost var t := datasets;
      DeleteFile(id);
      DeleteRow(id);
      WithoutClearFile(t, {}, id);
      WithoutNothing(t);
      assert {} + {id} == {id};
      assert datasets == Without(ClearFile(Without(t, {}), id), {id});
    }

    /** The eviction loop: for each dataset of `toDelete` in turn, delete
        its file and then its row. */
    method EvictAll(toDelete: seq<Dataset>)
      requires Valid()
      modifies this
      ensures Valid()
      ensures datasets == Without(old(datasets), Ids(toDelete))
      ensures records == RecordsOutside(old(records), Ids(toDelete))
      ensures storage == old(storage) - Ids(toDelete)
      ensures journal == old(journal) + EvictionJournal(toDelete)
      ensures nextId == old(nextId)
    {
      ghost var table, records0, storage0, journal0 := datasets, records, storage, journal;
      var rest := toDelete;
      ghost var deleted: seq<Dataset> := [];
      assert Ids(deleted) == {};
      WithoutNothing(table);
      RecordsOutsideNothing(records);
      while rest != []
        invariant deleted + rest == toDelete
        invariant Valid()
        invariant Evicting(table, records0, storage0, journal0, deleted, datasets, records, storage, journal)
        invariant nextId == old(nextId)
      {
        var ds := rest[0];
        MoveHead(deleted, rest);
        ghost var datasets1, records1, storage1, journal1 := datasets, records, storage, journal;
        Evict(ds.id);
        EvictingStep(table, records0, storage0, journal0, deleted, ds,
                     datasets1, records1, storage1, journal1);
        deleted := deleted + [ds];
        rest := rest[1..];
      }
      assert deleted == deleted + rest;
    }

    /** The retention trim: keep the five datasets with the latest upload
        time (`ids_to_keep`); when the table holds more than five, delete
        every other one, its file first and then its row. */
    method Trim()
      requires Valid()
      modifies this
      ensures Valid()
      ensures datasets == Retained(old(datasets))
      ensures records == RecordsOutside(old(records), Ids(Evicted(old(datasets))))
      ensures storage == old(storage) - Ids(Evicted(old(datasets)))
      ensures journal == old(journal) + EvictionJournal(Evicted(old(datasets)))
      ensures nextId == old(nextId)
    {
      var keep := KeptIds(datasets);
      var toDelete: seq<Dataset> := [];
      if |datasets| > KeepCount {
        toDelete := Without(datasets, keep);
      }
      assert toDelete == Evicted(datasets);
      EvictAll(toDelete);
    }

    /** `EquipmentRecord.objects.bulk_create(recs)`: the records are appended;
        the foreign key demands that each points to an existing dataset. */
    method AddRecords(recs: seq<Record>)
      requires Valid()
      requires forall r :: r in recs ==> r.dataset in Ids(datasets)
      modifies this
      ensures Valid()
      ensures records == old(records) + recs
      ensures datasets == old(datasets) && storage == old(storage)
      ensures journal == old(journal) && nextId == old(nextId)
    {
      records := records + recs;
    }

    /** `Dataset.save()` for a new dataset: insert it, then trim. */
    method Save(owner: nat, now: int) returns (id: nat)
      requires Valid()
      modifies this
      ensures Valid()
      ensures id == old(nextId) && nextId == id + 1
      ensures var t := old(datasets) + [Dataset(id, owner, now, true)];
        datasets == Retained(t) &&
        records == RecordsOutside(old(records), Ids(Evicted(t))) &&
        storage == old(storage) + {id} - Ids(Evicted(t)) &&
        journal == old(journal) + EvictionJournal(Evicted(t))
    {
      id := Insert(owner, now);
      Trim();
    }
  }

  // ---------------------------------------------------------------------
  // Each change keeps the store consistent

  /** The store after deleting the datasets `deleted` one after the other,
      starting from the given tables, storage and journal. */
  ghost predicate Evicting(table: seq<Dataset>, records0: seq<Record>, storage0: set<nat>, journal0: seq<Effect>,
                           deleted: seq<Dataset>,
                           datasets: seq<Dataset>, records: seq<Record>, storage: set<nat>, journal: seq<Effect>)
  {
    datasets == Without(table, Ids(deleted)) &&
    records == RecordsOutside(records0, Ids(deleted)) &&
    storage == storage0 - Ids(deleted) &&
    journal == journal0 + EvictionJournal(deleted)
  }

  /** Evicting one more dataset. */
  lemma EvictingStep(table: seq<Dataset>, records0: seq<Record>, storage0: set<nat>, journal0: seq<Effect>,
                     deleted: seq<Dataset>, d: Dataset,
                     datasets: seq<Dataset>, records: seq<Record>, storage: set<nat>, journal: seq<Effect>)
    requires Evicting(table, records0, storage0, journal0, deleted, datasets, records, storage, journal)
    ensures Evicting(table, records0, storage0, journal0, deleted + [d],
                     Without(datasets, {d.id}), RecordsOutside(records, {d.id}), storage - {d.id},
                     journal + [FileDeleted(d.id), RowDeleted(d.id)])
  {
    WithoutTwice(table, Ids(deleted), d.id);
    RecordsOutsideTwice(records0, Ids(deleted), d.id);
    IdsOfSnoc(deleted, d);
    EvictionJournalSnoc(deleted, d);
    Associative(journal0, EvictionJournal(deleted), [FileDeleted(d.id), RowDeleted(d.id)]);
  }

  /** Every record points below `nextId`, since its dataset exists. */
  lemma RecordsBelowNext(datasets: seq<Dataset>, records: seq<Record>, storage: set<nat>, nextId: nat)
    requires Consistent(datasets, records, storage, nextId)
    ensures forall r :: r in records ==> r.dataset < nextId
  {
    forall r | r in records ensures r.dataset < nextId {
      var d :| d in datasets && d.id == r.dataset;
    }
  }

  lemma InsertKeeps(datasets: seq<Dataset>, records: seq<Record>, storage: set<nat>, nextId: nat,
                    owner: nat, now: int)
    requires Consistent(datasets, records, storage, nextId)
    ensures nextId !in storage
    ensures Consistent(datasets + [Dataset(nextId, owner, now, true)], records, storage + {nextId}, nextId + 1)
  {
    var d := Dataset(nextId, owner, now, true);
    assert DistinctIds(datasets + [d]) by {
      forall i, j | 0 <= i < j < |datasets| + 1
        ensures (datasets + [d])[i].id != (datasets + [d])[j].id
      {
        if j == |datasets| {
          assert datasets[i] in datasets;
        }
      }
    }
    IdsOfSnoc(datasets, d);
  }

  lemma ClearFileKeeps(datasets: seq<Dataset>, records: seq<Record>, storage: set<nat>, nextId: nat, id: nat)
    requires Consistent(datasets, records, storage, nextId)
    ensures Consistent(ClearFile(datasets, id), records, storage - {id}, nextId)
  {
    var cleared := ClearFile(datasets, id);
    SameIds(datasets, cleared);
    forall d | d in cleared ensures d.id < nextId && (d.hasFile ==> d.id in storage - {id}) {
      var k :| 0 <= k < |cleared| && cleared[k] == d;
      assert datasets[k] in datasets;
    }
  }

  /** Two tables with the same ids row by row have the same id set, and one
      has distinct ids exactly when the other has. */
  lemma SameIds(a: seq<Dataset>, b: seq<Dataset>)
    requires |a| == |b| && forall k :: 0 <= k < |a| ==> a[k].id == b[k].id
    ensures Ids(a) == Ids(b)
    ensures DistinctIds(a) == DistinctIds(b)
  {
    forall x | x in Ids(a) ensures x in Ids(b) {
      var k :| 0 <= k < |a| && a[k].id == x;
      assert b[k] in b;
    }
    forall x | x in Ids(b) ensures x in Ids(a) {
      var k :| 0 <= k < |b| && b[k].id == x;
      assert a[k] in a;
    }
  }

  lemma DeleteRowKeeps(datasets: seq<Dataset>, records: seq<Record>, storage: set<nat>, nextId: nat, id: nat)
    requires Consistent(datasets, records, storage, nextId)
    ensures Consistent(Without(datasets, {id}), RecordsOutside(records, {id}), storage, nextId)
  {
    var rest := RecordsOutside(records, {id});
    RecordsOutsideCount(records, {id});
    WithoutDistinct(datasets, {id});
    WithoutIds(datasets, {id});
    forall r | r in rest ensures r.dataset in Ids(datasets) - {id} {
      assert multiset(rest)[r] > 0;
    }
  }

  // ---------------------------------------------------------------------
  // Deleting one more dataset extends the set of deleted ids

  lemma {:induction false} WithoutClearFile(t: seq<Dataset>, ids: set<nat>, x: nat)
    ensures Without(ClearFile(Without(t, ids), x), {x}) == Without(t, ids + {x})
  {
    if t != [] {
      WithoutClearFile(t[1..], ids, x);
      var w := Without(t[1..], ids);
      var rhs := Without(t[1..], ids + {x});
      assert Without(ClearFile(w, x), {x}) == rhs;
      if t[0].id in ids {
        assert Without(t, ids) == w;
        assert Without(t, ids + {x}) == rhs;
      } else {
        var s := [t[0]] + w;
        assert Without(t, ids) == s;
        assert s[0] == t[0] && s[1..] == w;
        var c0 := if t[0].id == x then t[0].(hasFile := false) else t[0];
        assert ClearFile(s, x) == [c0] + ClearFile(w, x);
        var cs := [c0] + ClearFile(w, x);
        assert cs[0] == c0 && cs[1..] == ClearFile(w, x);
        if t[0].id == x {
          assert Without(cs, {x}) == Without(ClearFile(w, x), {x});
          assert Without(t, ids + {x}) == rhs;
        } else {
          assert Without(cs, {x}) == [t[0]] + Without(ClearFile(w, x), {x});
          assert Without(t, ids + {x}) == [t[0]] + rhs;
        }
      }
    }
  }

  lemma {:induction false} RecordsOutsideTwice(rs: seq<Record>, ids: set<nat>, x: nat)
    ensures RecordsOutside(RecordsOutside(rs, ids), {x}) == RecordsOutside(rs, ids + {x})
  {
    if rs != [] {
      RecordsOutsideTwice(rs[1..], ids, x);
      var w := RecordsOutside(rs[1..], ids);
      var rhs := RecordsOutside(rs[1..], ids + {x});
      if rs[0].dataset in ids {
        assert RecordsOutside(rs, ids) == w;
        assert RecordsOutside(rs, ids + {x}) == rhs;
      } else {
        var s := [rs[0]] + w;
        assert RecordsOutside(rs, ids) == s;
        assert s[0] == rs[0] && s[1..] == w;
        if rs[0].dataset == x {
          assert RecordsOutside(s, {x}) == RecordsOutside(w, {x});
          assert RecordsOutside(rs, ids + {x}) == rhs;
        } else {
          assert RecordsOutside(s, {x}) == [rs[0]] + RecordsOutside(w, {x});
          assert RecordsOutside(rs, ids + {x}) == [rs[0]] + rhs;
        }
      }
    }
  }

  lemma Associative<T>(a: seq<T>, b: seq<T>, c: seq<T>)
    ensures a + (b + c) == (a + b) + c
  {
  }

  lemma MoveHead<T>(done: seq<T>, rest: seq<T>)
    requires rest != []
    ensures (done + [rest[0]]) + rest[1..] == done + rest
  {
  }

  lemma {:induction false} WithoutTwice(t: seq<Dataset>, ids: set<nat>, x: nat)
    ensures Without(Without(t, ids), {x}) == Without(t, ids + {x})
  {
    if t != [] {
      WithoutTwice(t[1..], ids, x);
      var w := Without(t[1..], ids);
      var rhs := Without(t[1..], ids + {x});
      if t[0].id in ids {
        assert Without(t, ids) == w;
        assert Without(t, ids + {x}) == rhs;
      } else {
        var s := [t[0]] + w;
        assert Without(t, ids) == s;
        assert s[0] == t[0] && s[1..] == w;
        if t[0].id == x {
          assert Without(s, {x}) == Without(w, {x});
          assert Without(t, ids + {x}) == rhs;
        } else {
          assert Without(s, {x}) == [t[0]] + Without(w, {x});
          assert Without(t, ids + {x}) == [t[0]] + rhs;
        }
      }
    }
  }

  lemma EvictionJournalSnoc(ds: seq<Dataset>, d: Dataset)
    ensures EvictionJournal(ds + [d]) == EvictionJournal(ds) + [FileDeleted(d.id), RowDeleted(d.id)]
  {
    assert (ds + [d])[..|ds|] == ds;
  }

  /** Deleting datasets that no record points to leaves the records alone. */
  lemma {:induction false} RecordsOutsideUnrelated(rs: seq<Record>, ids: set<nat>)
    requires forall r :: r in rs ==> r.dataset !in ids
    ensures RecordsOutside(rs, ids) == rs
  {
    if rs != [] {
      RecordsOutsideUnrelated(rs[1..], ids);
      assert rs == [rs[0]] + rs[1..];
    }
  }

  lemma {:induction false} RecordsOutsideNothing(rs: seq<Record>)
    ensures RecordsOutside(rs, {}) == rs
  {
    if rs != [] {
      RecordsOutsideNothing(rs[1..]);
      assert rs == [rs[0]] + rs[1..];
    }
  }
}
