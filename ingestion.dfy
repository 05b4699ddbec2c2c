/** The upload view (backend/api/views.py:19-47): the dataset is saved
    (which runs the retention trim), each CSV row becomes one
    EquipmentRecord, the records are inserted in bulk, and on any failure
    the new dataset is deleted again. The CSV arrives already split into
    rows, each a map from column name to cell. */
module Ingestion {
  import opened Tables
  import opened Retention
  import opened Database

  datatype Option<T> = None | Some(value: T)

  datatype Result<T> = Ok(value: T) | Err(error: Failure)

  /** Why an upload is refused after its dataset was saved. */
  datatype Failure =
    | UnreadableFile           // the file cannot be read as a CSV, or is gone
    | MissingColumn(column: string)  // a row has no such column (KeyError)
    | BadValue(column: string)       // a cell cannot be stored in a float column

  /** A cell as pandas reads it: an empty cell is NaN (`Missing`); any
      other cell has its text and, when it reads as a number, that number. */
  datatype Cell = Missing | Present(text: string, number: Option<real>)

  type Row = map<string, Cell>

  /** The uploaded file: either unreadable, or a header and data rows. */
  datatype Csv = Unreadable | Table(rows: seq<Row>)

  const NameColumn := "Equipment Name"
  const TypeColumn := "Type"
  const FlowrateColumn := "Flowrate"
  const PressureColumn := "Pressure"
  const TemperatureColumn := "Temperature"

  /** The five columns in the order the record's keyword arguments read them. */
  const Columns := [NameColumn, TypeColumn, FlowrateColumn, PressureColumn, TemperatureColumn]

  /** An unsaved EquipmentRecord: its dataset and the cells it was given. */
  datatype Pending = Pending(dataset: nat, name: Cell, kind: Cell,
                             flowrate: Cell, pressure: Cell, temperature: Cell)

  predicate HasColumns(row: Row)
  {
    NameColumn in row && TypeColumn in row && FlowrateColumn in row &&
    PressureColumn in row && TemperatureColumn in row
  }

  /** `EquipmentRecord(dataset=..., equipment_name=row['Equipment Name'], ...)`:
      the five lookups happen in keyword order and the first missing column
      raises. */
  function Lookup(id: nat, row: Row): (r: Result<Pending>)
    ensures r.Ok? <==> HasColumns(row)
    ensures r.Ok? ==> r.value == Pending(id, row[NameColumn], row[TypeColumn],
                                         row[FlowrateColumn], row[PressureColumn],
                                         row[TemperatureColumn])
    ensures r.Err? ==> r.error.MissingColumn? && r.error.column !in row
    ensures r.Err? ==> exists k :: 0 <= k < |Columns| && r.error == MissingColumn(Columns[k]) &&
                                   forall j :: 0 <= j < k ==> Columns[j] in row
  {
    if NameColumn !in row then
      assert Columns[0] == NameColumn;
      Err(MissingColumn(NameColumn))
    else if TypeColumn !in row then
      assert Columns[1] == TypeColumn;
      Err(MissingColumn(TypeColumn))
    else if FlowrateColumn !in row then
      assert Columns[2] == FlowrateColumn;
      Err(MissingColumn(FlowrateColumn))
    else if PressureColumn !in row then
      assert Columns[3] == PressureColumn;
      Err(MissingColumn(PressureColumn))
    else if TemperatureColumn !in row then
      assert Columns[4] == TemperatureColumn;
      Err(MissingColumn(TemperatureColumn))
    else Ok(Pending(id, row[NameColumn], row[TypeColumn], row[FlowrateColumn],
                    row[PressureColumn], row[TemperatureColumn]))
  }

  /** The records the loop over `df.iterrows()` builds: one per row, in
      order, or the error of the first row that lacks a column. */
  function PendingRows(id: nat, rows: seq<Row>): (r: Result<seq<Pending>>)
    ensures r.Ok? <==> forall k :: 0 <= k < |rows| ==> HasColumns(rows[k])
    ensures r.Ok? ==> (|r.value| == |rows| &&
                       forall k :: 0 <= k < |rows| ==> Lookup(id, rows[k]) == Ok(r.value[k]))
    ensures r.Err? ==> (exists k :: 0 <= k < |rows| && Lookup(id, rows[k]) == Err(r.error) &&
                                  forall j :: 0 <= j < k ==> HasColumns(rows[j]))
  {
    if rows == [] then Ok([])
    else
      var init := rows[..|rows| - 1];
      assert forall k :: 0 <= k < |init| ==> init[k] == rows[k];
      match PendingRows(id, init)
      case Err(e) => Err(e)
      case Ok(ps) =>
        match Lookup(id, rows[|rows| - 1])
        case Err(e) => Err(e)
        case Ok(p) => Ok(ps + [p])
  }

  /** The text a character column stores: pandas' NaN is stored as "nan". */
  function Text(c: Cell): string
  {
    match c
    case Missing => "nan"
    case Present(text, _) => text
  }

  /** The value a float column stores, or the error of the insert. */
  function Number(c: Cell, column: string): Result<real>
  {
    match c
    case Present(_, Some(x)) => Ok(x)
    case _ => Err(BadValue(column))
  }

  predicate Storable(p: Pending)
  {
    Number(p.flowrate, FlowrateColumn).Ok? && Number(p.pressure, PressureColumn).Ok? &&
    Number(p.temperature, TemperatureColumn).Ok?
  }

  /** The row the database stores for one pending record. */
  function Stored(p: Pending): Result<Record>
  {
    match Number(p.flowrate, FlowrateColumn)
    case Err(e) => Err(e)
    case Ok(f) =>
      match Number(p.pressure, PressureColumn)
      case Err(e) => Err(e)
      case Ok(pr) =>
        match Number(p.temperature, TemperatureColumn)
        case Err(e) => Err(e)
        case Ok(te) => Ok(Record(p.dataset, Text(p.name), Text(p.kind), f, pr, te))
  }

  /** `bulk_create`: all records are stored, or none is. */
  function BulkCreate(ps: seq<Pending>): (r: Result<seq<Record>>)
    ensures r.Ok? <==> forall k :: 0 <= k < |ps| ==> Storable(ps[k])
    ensures r.Ok? ==> (|r.value| == |ps| &&
                       forall k :: 0 <= k < |ps| ==> Stored(ps[k]) == Ok(r.value[k]))
  {
    if ps == [] then Ok([])
    else
      match Stored(ps[0])
      case Err(e) => Err(e)
      case Ok(x) =>
        match BulkCreate(ps[1..])
        case Err(e) => Err(e)
        case Ok(xs) => Ok([x] + xs)
  }

  /** What parsing and inserting the uploaded file gives for dataset `id`. */
  function Ingest(id: nat, csv: Csv): Result<seq<Record>>
  {
    match csv
    case Unreadable => Err(UnreadableFile)
    case Table(rows) =>
      match PendingRows(id, rows)
      case Err(e) => Err(e)
      case Ok(ps) => BulkCreate(ps)
  }

  /** A successful ingestion of K rows gives exactly K records, all of the
      new dataset, each taking its fields from the five named columns; it
      succeeds exactly when the file is readable and every row has the five
      columns with numbers in the three float columns. */
  lemma IngestRecords(id: nat, csv: Csv)
    ensures Ingest(id, csv).Ok? <==>
              (csv.Table? &&
               forall k :: 0 <= k < |csv.rows| ==>
                             (HasColumns(csv.rows[k]) && Storable(Lookup(id, csv.rows[k]).value)))
    ensures Ingest(id, csv).Ok? ==>
      var recs := Ingest(id, csv).value;
      |recs| == |csv.rows| &&
      forall k :: 0 <= k < |recs| ==>
        var row := csv.rows[k];
        recs[k].dataset == id &&
        recs[k].name == Text(row[NameColumn]) &&
        recs[k].kind == Text(row[TypeColumn]) &&
        Number(row[FlowrateColumn], FlowrateColumn) == Ok(recs[k].flowrate) &&
        Number(row[PressureColumn], PressureColumn) == Ok(recs[k].pressure) &&
        Number(row[TemperatureColumn], TemperatureColumn) == Ok(recs[k].temperature)
  {
    if csv.Table? {
      var pr := PendingRows(id, csv.rows);
      if pr.Ok? {
        var ps := pr.value;
        assert forall k :: 0 <= k < |ps| ==> Lookup(id, csv.rows[k]).value == ps[k];
      }
    }
  }

  /** The loop of backend/api/views.py:31-40, stopping at the first row that
      lacks a column. */
  method CollectRecords(id: nat, rows: seq<Row>) returns (res: Result<seq<Pending>>)
    ensures res == PendingRows(id, rows)
  {
    var acc: seq<Pending> := [];
    var i := 0;
    while i < |rows|
      invariant 0 <= i <= |rows|
      invariant PendingRows(id, rows[..i]) == Ok(acc)
    {
      assert rows[..i + 1][..i] == rows[..i];
      match Lookup(id, rows[i]) {
        case Err(e) =>
          assert PendingRows(id, rows[..i + 1]) == Err(e);
          FirstFailureStays(id, rows, i + 1);
          return Err(e);
        case Ok(p) =>
          acc := acc + [p];
      }
      i := i + 1;
    }
    assert rows[..i] == rows;
    return Ok(acc);
  }

  /** Once a prefix of the rows fails, the whole of them fails the same way. */
  lemma {:induction false} FirstFailureStays(id: nat, rows: seq<Row>, n: nat)
    requires n <= |rows| && PendingRows(id, rows[..n]).Err?
    ensures PendingRows(id, rows) == PendingRows(id, rows[..n])
    decreases |rows| - n
  {
    if n < |rows| {
      assert rows[..n + 1][..n] == rows[..n];
      FirstFailureStays(id, rows, n + 1);
    } else {
      assert rows[..n] == rows;
    }
  }

  /** `pd.read_csv`, the loop building the records, and the bulk insert. */
  method ReadRecords(id: nat, csv: Csv) returns (result: Result<seq<Record>>)
    ensures result == Ingest(id, csv)
  {
    match csv {
      case Unreadable =>
        result := Err(UnreadableFile);
      case Table(rows) =>
        var pending := CollectRecords(id, rows);
        match pending {
          case Err(e) => result := Err(e);
          case Ok(ps) => result := BulkCreate(ps);
        }
    }
  }

  /** The response of the upload view. */
  datatype Response =
    | Created(id: nat, uploadedAt: int)   // HTTP 201 with the dataset's fields
    | Rejected                            // HTTP 400: no valid file in the request
    | Failed(reason: Failure)             // HTTP 400: {"error": ...}

  /** `DatasetUploadView.post`. `payload` is None when the request carries no
      valid file; `now` is the creation time the database assigns. */
  method Upload(db: Store, owner: nat, now: int, payload: Option<Csv>) returns (resp: Response)
    requires db.Valid()
    modifies db
    ensures db.Valid()
    ensures payload.None? ==> resp == Rejected && unchanged(db)
    ensures resp.Failed? ==> (old(db.nextId) !in Ids(db.datasets) &&
                              forall r :: r in db.records ==> r.dataset != old(db.nextId))
    ensures payload.Some? ==> UploadOutcome(old(db.datasets), old(db.records), old(db.storage),
                                            old(db.journal), old(db.nextId), owner, now, payload.value,
                                            db.datasets, db.records, db.storage, db.journal, db.nextId, resp)
  {
    if payload.None? {
      return Rejected;
    }
    resp := UploadFile(db, owner, now, payload.value);
  }

  /** What an upload of `csv` does to the store: the dataset is saved and the
      table trimmed; then either the records are added and the upload is
      created, or the new row is deleted again and its file stays on disk. */
  ghost predicate UploadOutcome(
    datasets: seq<Dataset>, records: seq<Record>, storage: set<nat>, journal: seq<Effect>, nextId: nat,
    owner: nat, now: int, csv: Csv,
    datasets': seq<Dataset>, records': seq<Record>, storage': set<nat>, journal': seq<Effect>, nextId': nat,
    resp: Response)
  {
    var id := nextId;
    var t := datasets + [Dataset(id, owner, now, true)];
    var gone := Ids(Evicted(t));
    var result := if id in gone then Err(UnreadableFile) else Ingest(id, csv);
    nextId' == id + 1 &&
    storage' == storage + {id} - gone &&
    (result.Ok? ==>
       resp == Created(id, now) &&
       datasets' == Retained(t) &&
       records' == RecordsOutside(records, gone) + result.value &&
       journal' == journal + EvictionJournal(Evicted(t))) &&
    (result.Err? ==>
       resp == Failed(result.error) &&
       datasets' == Without(Retained(t), {id}) &&
       records' == RecordsOutside(records, gone) &&
       journal' == journal + EvictionJournal(Evicted(t)) + [RowDeleted(id)])
  }

  /** A failed upload still ran the trim at save time: when the table held
      five or more older datasets, some of them were evicted, and after the
      rollback only four datasets remain. */
  lemma FailedUploadStillEvicts(datasets: seq<Dataset>, n: Dataset)
    requires DistinctIds(datasets) && |datasets| >= KeepCount
    requires forall d :: d in datasets ==> d.id != n.id && d.uploadedAt < n.uploadedAt
    ensures |Evicted(datasets + [n])| == |datasets| + 1 - KeepCount > 0
    ensures |Without(Retained(datasets + [n]), {n.id})| == KeepCount - 1
  {
    var t := datasets + [n];
    assert DistinctIds(t) by {
      forall i, j | 0 <= i < j < |t| ensures t[i].id != t[j].id {
        if j == |datasets| {
          assert t[i] in datasets;
        }
      }
    }
    NewestSurvives(t, n);
    RetainedCount(t);
    var r := Retained(t);
    WithoutDistinct(t, Ids(Evicted(t)));
    DistinctIdsCount(r);
    assert n.id in Ids(r);
    WithoutDistinct(r, {n.id});
    DistinctIdsCount(Without(r, {n.id}));
    WithoutIds(r, {n.id});
    assert |Ids(r) - {n.id}| == |Ids(r)| - 1;
    // the evicted rows are those outside the keep list
    KeptIdsInTable(t);
    KeptIdsCount(t);
    WithoutIds(t, KeptIds(t));
    WithoutDistinct(t, KeptIds(t));
    DistinctIdsCount(Evicted(t));
    DistinctIdsCount(t);
    assert |Ids(t) - KeptIds(t)| == |Ids(t)| - |KeptIds(t)| by {
      SubsetDifference(Ids(t), KeptIds(t));
    }
  }

  lemma SubsetDifference<T>(a: set<T>, b: set<T>)
    requires b <= a
    ensures |a - b| == |a| - |b|
  {
    assert a == (a - b) + b;
  }

  /** No record can point to a dataset id that was never handed out, so
      none survives the trim either. */
  lemma FreshIdUnreferenced(rs: seq<Record>, gone: set<nat>, id: nat)
    requires forall r :: r in rs ==> r.dataset < id
    ensures forall r :: r in RecordsOutside(rs, gone) ==> r.dataset != id
  {
    RecordsOutsideSubset(rs, gone);
  }

  /** After the save (backend/api/views.py:41-46): the records are added and
      the upload is created, or the new row is deleted again. No record
      points to the new dataset yet, so that delete takes no record with
      it, and the file stays on disk. */
  method Settle(db: Store, id: nat, now: int, result: Result<seq<Record>>) returns (resp: Response)
    requires db.Valid()
    requires forall r :: r in db.records ==> r.dataset != id
    requires result.Ok? ==> id in Ids(db.datasets) && forall r :: r in result.value ==> r.dataset == id
    modifies db
    ensures db.Valid()
    ensures db.storage == old(db.storage) && db.nextId == old(db.nextId)
    ensures result.Ok? ==>
              resp == Created(id, now) && db.datasets == old(db.datasets) &&
              db.records == old(db.records) + result.value && db.journal == old(db.journal)
    ensures result.Err? ==>
              resp == Failed(result.error) && db.datasets == Without(old(db.datasets), {id}) &&
              db.records == old(db.records) && db.journal == old(db.journal) + [RowDeleted(id)]
  {
    if result.Ok? {
      db.AddRecords(result.value);
      resp := Created(id, now);
    } else {
      RecordsOutsideUnrelated(db.records, {id});
      db.DeleteRow(id);
      resp := Failed(result.error);
    }
  }

  /** Every record an ingestion creates belongs to the new dataset. */
  lemma IngestOwnRecords(id: nat, csv: Csv)
    ensures Ingest(id, csv).Ok? ==> forall r :: r in Ingest(id, csv).value ==> r.dataset == id
  {
    IngestRecords(id, csv);
    if Ingest(id, csv).Ok? {
      var recs := Ingest(id, csv).value;
      forall r | r in recs ensures r.dataset == id {
        var k :| 0 <= k < |recs| && recs[k] == r;
      }
    }
  }

  /** The new row survives the trim exactly when its file does. */
  lemma SavedRowPresent(datasets: seq<Dataset>, storage: set<nat>, n: Dataset)
    requires forall d :: d in datasets ==> d.id != n.id
    ensures var t := datasets + [n];
            n.id in storage + {n.id} - Ids(Evicted(t)) <==> n.id in Ids(Retained(t))
  {
    var t := datasets + [n];
    WithoutIds(t, Ids(Evicted(t)));
    IdsOfSnoc(datasets, n);
  }

  /** Save, then read the file if it is still there, then settle: together
      these give `UploadOutcome`. */
  lemma OutcomeOfSteps(
    datasets: seq<Dataset>, records: seq<Record>, storage: set<nat>, journal: seq<Effect>, nextId: nat,
    owner: nat, now: int, csv: Csv,
    saved: seq<Dataset>, kept: seq<Record>, stored: set<nat>, logged: seq<Effect>,
    result: Result<seq<Record>>,
    datasets': seq<Dataset>, records': seq<Record>, storage': set<nat>, journal': seq<Effect>, nextId': nat,
    resp: Response)
    requires var t := datasets + [Dataset(nextId, owner, now, true)];
             saved == Retained(t) && kept == RecordsOutside(records, Ids(Evicted(t))) &&
             stored == storage + {nextId} - Ids(Evicted(t)) &&
             logged == journal + EvictionJournal(Evicted(t))
    requires nextId' == nextId + 1
    requires result == if nextId in stored then Ingest(nextId, csv) else Err(UnreadableFile)
    requires result.Ok? ==>
               resp == Created(nextId, now) && datasets' == saved && records' == kept + result.value &&
               storage' == stored && journal' == logged
    requires result.Err? ==>
               resp == Failed(result.error) && datasets' == Without(saved, {nextId}) &&
               records' == kept && storage' == stored && journal' == logged + [RowDeleted(nextId)]
    ensures UploadOutcome(datasets, records, storage, journal, nextId, owner, now, csv,
                          datasets', records', storage', journal', nextId', resp)
  {
  }

  method UploadFile(db: Store, owner: nat, now: int, csv: Csv) returns (resp: Response)
    requires db.Valid()
    modifies db
    ensures db.Valid()
    ensures UploadOutcome(old(db.datasets), old(db.records), old(db.storage),
                          old(db.journal), old(db.nextId), owner, now, csv,
                          db.datasets, db.records, db.storage, db.journal, db.nextId, resp)
  {
    ghost var t := db.datasets + [Dataset(db.nextId, owner, now, true)];
    ghost var gone := Ids(Evicted(t));
    RecordsBelowNext(db.datasets, db.records, db.storage, db.nextId);
    SavedRowPresent(db.datasets, db.storage, Dataset(db.nextId, owner, now, true));
    FreshIdUnreferenced(db.records, gone, db.nextId);
    var id := db.Save(owner, now);
    ghost var saved, kept, stored, logged := db.datasets, db.records, db.storage, db.journal;
    var result: Result<seq<Record>>;
    if id !in db.storage {
      result := Err(UnreadableFile);
    } else {
      result := ReadRecords(id, csv);
    }
    IngestOwnRecords(id, csv);
    resp := Settle(db, id, now, result);
    OutcomeOfSteps(old(db.datasets), old(db.records), old(db.storage), old(db.journal), old(db.nextId),
                   owner, now, csv, saved, kept, stored, logged, result,
                   db.datasets, db.records, db.storage, db.journal, db.nextId, resp);
  }
}
