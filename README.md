# ChemData backend: retention, ingestion, statistics and report pagination

This project models the persistence and analysis core of the ChemData
Visualizer backend (a Django service that stores uploaded CSV files of
chemical-process equipment readings) and proves properties of the model in
Dafny.

The model has seven modules:

- `Tables` (tables.dfy): the two tables as values. A `Dataset` row has an
  id, an owner, an integer upload time and a flag saying whether its file
  field is set. An `EquipmentRecord` row points to its dataset and carries
  a name, a type and three readings. The module also holds the filters and
  the newest-first ordering that the ORM queries perform.
- `Retention` (retention.dfy): the retention rule of `Dataset.save`, as
  functions of the dataset table. After an insert, the five datasets with
  the latest upload time are kept. When the table holds more than five,
  every other dataset is evicted.
- `Database` (database.dfy): the database and the file storage as one
  class, `Store`. Its methods update the tables in place:
  - inserting a dataset;
  - deleting its file;
  - deleting its row, which cascades to its records;
  - the eviction loop and the trim;
  - `save` itself.

  A journal records every file and row deletion in order, so the model can
  state that a file goes before its row.
- `Ingestion` (ingestion.dfy): the upload view. The dataset is saved, which
  runs the trim. The CSV is read, each row becomes one record, and the
  records are inserted in bulk. On any failure the new dataset row is
  deleted again.
- `Listings` (listings.dfy): the per-user list, the global list and the
  records-of-a-dataset list.
- `Statistics` (statistics.dfy): the stats view. It gives a "not found or
  empty" answer, or the record count, the three column means and the
  equipment-type distribution.
- `Report` (report.dfy): the PDF view. What is modelled is its summary
  figures and where each table row lands: the row, the page and the height
  on the page.

Points where the behaviour of the code is worth stating outright:

- **The trim is not scoped per owner.** It ranks and counts every dataset
  in the table, whoever owns it (backend/api/models.py:11-12, 17).
  `Retention.OwnerBlind` proves that ownership plays no part.
- **The ranking has no secondary key.** Datasets are ranked by upload time
  alone, so the database may return tied rows in any order. The model
  breaks ties in table order: of two rows with the same upload time, the
  one earlier in the table ranks first (`Retention.SortTied`). The
  `Retention` lemmas about the trim are stated without relying on that
  order: no evicted dataset is strictly newer than a kept one. The
  store-level contracts do commit to it. `Database.Store.Trim`,
  `Database.Store.Save` and `Ingestion.UploadOutcome` are stated with
  `Retained` and `Evicted`, so among tied rows they describe the choice
  that table order makes, which is one of the choices the database may
  make.
- **A new upload can be evicted by its own save.** Its `auto_now_add`
  time is at least every other upload time, so it can tie with the newest.
  With fewer than five other datasets at least as new, it is always kept,
  whatever order the database gives tied rows
  (`Retention.FewTiesSurvive`). When it is appended to a table of five or
  more rows that all share its upload time, table order ranks it last and
  the model evicts it (`Retention.TiedNewcomerEvicted`). That eviction
  comes from the model's table-order tie rule; the database does not
  promise it, and may keep the new row instead. If it is evicted, its file
  is already gone, so reading the CSV fails and the upload takes the
  failure path. `Ingestion.UploadOutcome` states this.
- **A failed upload leaves its file on disk.** The rollback
  (backend/api/views.py:45) deletes only the row, so the uploaded file
  stays in storage. The model's storage after a failure is the old storage
  plus the new file, minus the evicted files.
- **The dataset model declares no owner field.** The model declares one
  anyway, because the views rely on it: they save with a user and filter by
  user (backend/api/views.py:23, 54). backend/api/models.py:4-6 declares no
  such field.

## Model

| member | source | states |
|---|---|---|
| Tables.Without | backend/api/models.py:17 | `exclude(id__in=...)`: a row is in the result exactly when it is in the table and its id is not excluded; the result is no longer than the table |
| Tables.SortNewest | backend/api/models.py:11 | `order_by('-uploaded_at')`: the result is a permutation of the table, with upload times non-increasing |
| Tables.RecordsOutsideCount | backend/api/models.py:23 | the cascade: each record keeps its multiplicity if its dataset is not deleted, and disappears otherwise |
| Tables.RecordsOfCount | backend/api/views.py:68 | `filter(dataset_id=id)`: each record of dataset `id` keeps its multiplicity, and no other record appears |
| Retention.KeptIdsCount | backend/api/models.py:11 | the keep list has min(5, table size) distinct ids |
| Retention.KeptIsNewer | backend/api/models.py:11 | a dataset outside the keep list is never strictly newer than one inside it |
| Retention.RetainedMembership | backend/api/models.py:11-20 | a dataset survives the trim exactly when it was in the table, and either the table held at most five or its id is in the keep list |
| Retention.RetainedCount | backend/api/models.py:11-20 | after the trim the table holds min(n, 5) of its n datasets, so exactly 5 when it held more than 5 |
| Retention.SmallTableUntouched | backend/api/models.py:12 | a table of at most five datasets is left exactly as it was |
| Retention.RetainedIdempotent | backend/api/models.py:11-20 | trimming a trimmed table changes nothing |
| Retention.RetainedAreNewest | backend/api/models.py:11-17 | the survivors come from the table, and no evicted dataset is strictly newer than a survivor |
| Retention.NewestSurvives | backend/api/models.py:6-11 | a dataset strictly newer than every other (the one just saved with `auto_now_add`) is never evicted |
| Retention.NewerKept | backend/api/models.py:11-17 | if a dataset survives, every strictly newer dataset survives too |
| Retention.OlderThanFiveEvicted | backend/api/models.py:11-17 | a dataset with five or more strictly newer datasets is evicted |
| Retention.FewTiesSurvive | backend/api/models.py:6-20 | a dataset with fewer than five other datasets at least as new (the new upload, whose `auto_now_add` time ties with or beats every other) is never evicted, however tied rows are ranked |
| Retention.TiedNewcomerEvicted | backend/api/models.py:11-20 | under the table-order tie rule, a new row appended to a table of five or more rows that all share its upload time ranks last and is evicted by its own save; no survivor has its id |
| Retention.RetainedIdsCount | backend/api/models.py:11-20 | at most five dataset ids survive the trim |
| Retention.OwnerBlind | backend/api/models.py:11-17 | renaming owners in any way commutes with the trim: datasets of every owner compete for the same five places |
| Retention.FileBeforeRow | backend/api/models.py:18-20 | for each evicted dataset in turn, its file deletion comes first and its row deletion right after; no other id appears |
| Database.Store.Insert | backend/api/models.py:9 | the new row gets a fresh id, the owner, the creation time and its stored file; nothing else changes |
| Database.Store.DeleteFile | backend/api/models.py:19 | the file leaves storage, the row's file field is cleared, and the deletion is journalled; the records are untouched |
| Database.Store.DeleteRow | backend/api/models.py:20-23 | the row goes, with exactly the records that point to it; storage is untouched |
| Database.Store.Evict | backend/api/models.py:19-20 | one eviction: file, then row and its records; the journal grows by the file deletion followed by the row deletion |
| Database.Store.EvictAll | backend/api/models.py:18-20 | the loop over `to_delete`: the new tables, storage and journal are those of deleting every listed dataset in turn |
| Database.Store.Trim | backend/api/models.py:10-20 | the table becomes the retained table; exactly the records and files of the evicted datasets go, in journal order |
| Database.Store.AddRecords | backend/api/views.py:41 | `bulk_create` appends the records, each of which must point to an existing dataset |
| Database.Store.Save | backend/api/models.py:8-20 | insert then trim: the new state is the retention of the table with the new row appended |
| Ingestion.Lookup | backend/api/views.py:33-40 | a row yields a record exactly when it has all five columns; otherwise the first missing column is reported |
| Ingestion.PendingRows | backend/api/views.py:31-40 | one pending record per row, in order, exactly when every row has the five columns; otherwise the error of the first failing row |
| Ingestion.CollectRecords | backend/api/views.py:31-40 | the row loop, which stops at the first failing row, computes `PendingRows` |
| Ingestion.BulkCreate | backend/api/views.py:41 | all records are stored, or none: the insert succeeds exactly when every record is storable |
| Ingestion.IngestRecords | backend/api/views.py:28-41 | an upload of K rows succeeds exactly when the file reads and every row has the five columns with numbers; it then creates exactly K records of the new dataset, each taking its fields from `Equipment Name`, `Type`, `Flowrate`, `Pressure` and `Temperature` |
| Ingestion.ReadRecords | backend/api/views.py:28-41 | reading, the row loop and the bulk insert together give `Ingest` |
| Ingestion.Settle | backend/api/views.py:41-46 | on success the records are appended and nothing else changes; on failure exactly the new row is deleted, with no record touched and storage kept |
| Ingestion.UploadFile | backend/api/views.py:23-46 | save and trim, then either the records are added and the dataset is created, or the new row is deleted while its file stays |
| Ingestion.Upload | backend/api/views.py:19-47 | no valid file gives a 400 and changes nothing; a failure leaves no row and no record of the new dataset; otherwise the outcome of `UploadFile` |
| Ingestion.FailedUploadStillEvicts | backend/api/views.py:23-45 | with five or more older datasets, the save evicts some of them, so a failed upload leaves only four datasets |
| Listings.OwnedBy | backend/api/views.py:54 | `filter(user=owner)`: each dataset of the owner keeps its multiplicity, and no other appears |
| Listings.UserDatasets | backend/api/views.py:53-54 | the caller's datasets, each once, newest first, and none of anyone else's |
| Listings.AllDatasets | backend/api/views.py:57 | every dataset of every owner, newest first |
| Listings.DatasetRecords | backend/api/views.py:66-68 | every record of the dataset, whoever asks; the stats and report views read the dataset's records through it |
| Statistics.DatasetStats | backend/api/views.py:72-91 | "not found or empty" exactly when no record belongs to the dataset; otherwise a positive count and a distribution whose keys are exactly the types present |
| Statistics.DistributionCounts | backend/api/views.py:82-83 | `Count('equipment_type')` per type: each type in the distribution maps to the number of the dataset's records of that type, and a type missing from it has no record |
| Statistics.DistributionTotal | backend/api/views.py:82-83 | the type counts add up to the number of records, and every listed type has at least one record |
| Statistics.MeanBounds | backend/api/views.py:78-80 | a mean lies between any lower and upper bound of the column's readings |
| Statistics.StatsProperties | backend/api/views.py:73-83 | for a found dataset: the count is the number of its records, the distribution adds up to it, and each average is bounded by the readings |
| Statistics.StatsAverage | backend/api/views.py:77-80 | each average, added up once per record, is the column's sum over the dataset's records |
| Statistics.PumpAndValve | backend/api/views.py:72-91 | a pump (120, 15, 60) and a valve (0, 5, 25) give count 2, averages 60, 10 and 42.5, and one of each type |
| Report.Capacity | backend/api/views.py:143-163 | the number of rows that fit on a page: the last one is still at or above the bottom margin and one more would not be (29 on the first page, 38 after) |
| Report.Truncate | backend/api/views.py:165 | the drawn name is the prefix of the record's name of length min(length, 20), so the whole name when it is short enough |
| Report.PagesNeeded | backend/api/views.py:143-173 | filling pages in order takes `PageCount` pages: one page for up to 29 rows, then one more per 38 |
| Report.LayOutRows | backend/api/views.py:143-173 | every record appears exactly once, in order; each row is drawn at its slot, at or above y = 50; each page but the last is full; the last page is not empty; the page count is `PageCount` |
| Report.Render | backend/api/views.py:110-173 | "no data" exactly when no record belongs to the dataset; otherwise the count and averages of the stats view and a table with every record once, in order, each row at its slot, every page but the last full, the last page non-empty, and `PageCount` pages |

## Left out

- HTTP and REST-framework plumbing is not modelled: authentication, permissions, routing, serializer field projection and status codes beyond the response kind. backend/api/urls.py and backend/api/serializers.py are not part of this model.
- Reading the CSV with pandas is not modelled. The file arrives as either unreadable or an already-split sequence of rows, each a map from column name to cell.
- Numeric parsing is not modelled. A cell carries its number when it reads as one.
- Ingestion.Number: a missing (NaN) cell in a float column is treated as a failed insert. Whether a NaN float is accepted depends on the database engine.
- Ingestion.Text: a missing cell in a text column is stored as the text "nan".
- The ORM queries themselves are not modelled; the tables are sequences.
- Ties in upload time are broken in table order. The database may return tied rows in any order. The `Retention` lemmas do not depend on that order, but `Database.Store.Trim`, `Database.Store.Save` and `Ingestion.UploadOutcome` describe the table-order choice only.
- Database.Store.DeleteFile: always succeeds. In the code, a storage error other than a missing file (a permission error, say), or a database error during the trim, stops the eviction loop part-way. The error escapes the save, which runs outside the `try` (backend/api/views.py:23), so the new row stays and the request fails. The model has no such failure.
- Ingestion.Stored: any text is stored. The columns are declared with a maximum length of 255 and 100 characters (backend/api/models.py:24-25), and an engine that enforces the limit makes `bulk_create` fail on a longer name or type. The model does not include that failure.
- Database.Store.DeleteFile: `FieldFile.delete()` saves the row again by default, which runs the trim once more inside the eviction loop. The model does not include this nested trim.
- The upload time is a parameter (`now`), and the model does not require it to grow. The clock is not modelled.
- The read-then-delete race of the trim under concurrent uploads is not modelled.
- Floating-point arithmetic is not modelled. Averages are exact reals, and the two-decimal formatting of the report and the clients is left out.
- The report's drawing calls, fonts, colours, header and summary box (backend/api/views.py:96-141, 175-179) are not modelled. The type column is drawn untruncated and may overflow; that is not modelled either.
- Report.Render: neither the report nor the stats view checks who asks or that the dataset row exists. The model does the same.
- All GUI code (desktop-frontend/, web-frontend/) and the helper scripts (backend/create_user.py, backend/reset_pass.py, backend/generate_large_data.py) are not part of this model.
