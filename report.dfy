/** `DatasetPDFView.get` (backend/api/views.py:95-179): the PDF report of a
    dataset. What is modelled is what the report says and where each table
    row lands: the summary figures, then one line per record, drawn down the
    page from a cursor that moves 20 points per row and starts a new page
    when it falls below the bottom margin. Fonts, colours and the drawing
    calls themselves are not modelled. */
module Report {
  import opened Tables
  import opened Listings
  import opened Statistics

  /** The vertical positions used by the view, in PDF points. Table rows
      are 20 points apart; that distance is written as a literal so that the
      solver sees `20 * j` as linear arithmetic. */
  const TableTop: int := 640
  const HeaderGap: int := 25
  const BottomMargin: int := 50
  const PageTop: int := 800
  /** Equipment names are cut to this many characters. */
  const NameWidth: nat := 20

  /** The height of the first row on page `p`: under the table header on the
      first page, at the top of every later page. */
  function Top(p: nat): int
  {
    if p == 0 then TableTop - HeaderGap else PageTop
  }

  /** How many rows fit on page `p`: the row at `Top(p) - 20 * (c - 1)`
      is still above the margin, the next one would not be. */
  function Capacity(p: nat): (c: nat)
    ensures c > 0
    ensures Top(p) - 20 * (c - 1) >= BottomMargin
    ensures Top(p) - 20 * c < BottomMargin
  {
    ((Top(p) - BottomMargin) / 20 + 1) as nat
  }

  /** The number of rows on the pages before page `k`. */
  function Filled(k: nat): nat
  {
    if k == 0 then 0 else Filled(k - 1) + Capacity(k - 1)
  }

  /** The number of pages the table takes, counted independently of the
      loop: one page for up to 29 rows, then one more per 38 rows. */
  function PageCount(n: nat): nat
  {
    if n <= 29 then 1 else 2 + (n - 30) / 38
  }

  /** `str(name)[:20]`: the first `width` characters of the name, or the
      whole name when it is shorter. */
  function Truncate(s: string, width: nat): (r: string)
    ensures |r| <= width
    ensures |r| == if |s| <= width then |s| else width
    ensures r <= s
    ensures |s| <= width ==> r == s
  {
    if |s| <= width then s else s[..width]
  }

  /** One table row as drawn: its height, the (cut) equipment name, and the
      record whose type and readings fill the other columns. */
  datatype Line = Line(y: int, shown: string, record: Record)

  /** The records a page's rows show, in order. */
  function RecordsOn(lines: seq<Line>): seq<Record>
  {
    seq(|lines|, k requires 0 <= k < |lines| => lines[k].record)
  }

  /** The records in the order they appear in the document. */
  function Flatten(pages: seq<seq<Line>>): seq<Record>
  {
    if pages == [] then []
    else Flatten(pages[..|pages| - 1]) + RecordsOn(pages[|pages| - 1])
  }

  /** Every row sits at its slot on its page, above the bottom margin, and
      shows the first `NameWidth` characters of its record's name. */
  ghost predicate WellPlaced(pages: seq<seq<Line>>)
  {
    forall p, j :: 0 <= p < |pages| && 0 <= j < |pages[p]| ==>
      pages[p][j].y == Top(p) - 20 * j &&
      pages[p][j].y >= BottomMargin &&
      pages[p][j].shown == Truncate(pages[p][j].record.name, NameWidth)
  }

  lemma FlattenPage(pages: seq<seq<Line>>, page: seq<Line>)
    ensures Flatten(pages + [page]) == Flatten(pages) + RecordsOn(page)
  {
    assert (pages + [page])[..|pages|] == pages;
  }

  lemma RecordsOnSnoc(lines: seq<Line>, l: Line)
    ensures RecordsOn(lines + [l]) == RecordsOn(lines) + [l.record]
  {
    assert (lines + [l])[..|lines|] == lines;
  }

  lemma PlaceRow(pages: seq<seq<Line>>, cur: seq<Line>, l: Line)
    requires WellPlaced(pages + [cur])
    requires l.y == Top(|pages|) - 20 * |cur| && l.y >= BottomMargin
    requires l.shown == Truncate(l.record.name, NameWidth)
    ensures WellPlaced(pages + [cur + [l]])
  {
    var q: seq<seq<Line>> := pages + [cur + [l]];
    forall p, j | 0 <= p < |q| && 0 <= j < |q[p]|
      ensures q[p][j].y == Top(p) - 20 * j && q[p][j].y >= BottomMargin
      ensures q[p][j].shown == Truncate(q[p][j].record.name, NameWidth)
    {
      if p < |pages| {
        assert q[p] == (pages + [cur])[p];
      } else if j < |cur| {
        assert q[p][j] == (pages + [cur])[p][j];
      }
    }
  }

  lemma NewPage(pages: seq<seq<Line>>)
    requires WellPlaced(pages)
    ensures WellPlaced(pages + [[]])
  {
    var q: seq<seq<Line>> := pages + [[]];
    forall p, j | 0 <= p < |q| && 0 <= j < |q[p]|
      ensures q[p][j].y == Top(p) - 20 * j && q[p][j].y >= BottomMargin
      ensures q[p][j].shown == Truncate(q[p][j].record.name, NameWidth)
    {
      assert q[p] == pages[p];
    }
  }

  /** Every finished page holds as many rows as fit on it. */
  ghost predicate FullPages(done: seq<seq<Line>>)
  {
    forall p :: 0 <= p < |done| ==> |done[p]| == Capacity(p)
  }

  lemma FullPage(done: seq<seq<Line>>, cur: seq<Line>)
    requires FullPages(done)
    requires |cur| == Capacity(|done|)
    ensures FullPages(done + [cur])
  {
    forall p | 0 <= p < |done| + 1 ensures |(done + [cur])[p]| == Capacity(p) {
      if p < |done| {
        assert (done + [cur])[p] == done[p];
      }
    }
  }

  /** The page count reached by filling pages in order is `PageCount`. */
  lemma {:induction false} PagesNeeded(k: nat, c: nat)
    requires c <= Capacity(k)
    requires k > 0 ==> c > 0
    ensures PageCount(Filled(k) + c) == k + 1
  {
    if k > 0 {
      FilledClosed(k);
    }
  }

  lemma {:induction false} FilledClosed(k: nat)
    requires k > 0
    ensures Filled(k) == 29 + 38 * (k - 1)
  {
    if k > 1 {
      FilledClosed(k - 1);
    }
  }

  /** The cursor after `i` records, with `pages` finished pages and `rows`
      rows on the current one: it is the next slot of the current page, that
      page is not over-full, and only the first page may be empty. */
  ghost predicate Cursor(i: nat, pages: nat, rows: nat, y: int)
  {
    y == Top(pages) - 20 * rows &&
    rows <= Capacity(pages) &&
    (pages > 0 ==> rows > 0) &&
    i == Filled(pages) + rows
  }

  /** The cursor test of the loop: below the margin exactly when the current
      page is full; either way the next row lands at or above the margin. */
  lemma CursorStep(i: nat, pages: nat, rows: nat, y: int)
    requires Cursor(i, pages, rows, y)
    ensures y < BottomMargin ==> rows == Capacity(pages) && Cursor(i + 1, pages + 1, 1, PageTop - 20)
    ensures y >= BottomMargin ==> Cursor(i + 1, pages, rows + 1, y - 20)
  {
  }

  /** The state of the row loop after `i` records: the cursor, the finished
      pages are full, every row sits in its slot, and the rows hold the first
      `i` records in order. */
  ghost predicate Layout(rs: seq<Record>, i: nat, done: seq<seq<Line>>, cur: seq<Line>, y: int)
  {
    i <= |rs| &&
    Cursor(i, |done|, |cur|, y) &&
    FullPages(done) &&
    WellPlaced(done + [cur]) &&
    Flatten(done) + RecordsOn(cur) == rs[..i]
  }

  /** One pass of the loop: a page break when the cursor is below the
      margin, then the next record drawn at the cursor. */
  lemma Step(rs: seq<Record>, i: nat, done: seq<seq<Line>>, cur: seq<Line>, y: int,
             done': seq<seq<Line>>, cur': seq<Line>, y': int)
    requires Layout(rs, i, done, cur, y) && i < |rs|
    requires y < BottomMargin ==> done' == done + [cur] && cur' == [] && y' == PageTop
    requires y >= BottomMargin ==> done' == done && cur' == cur && y' == y
    ensures Layout(rs, i + 1, done', cur' + [Line(y', Truncate(rs[i].name, NameWidth), rs[i])],
                   y' - 20)
  {
    var l := Line(y', Truncate(rs[i].name, NameWidth), rs[i]);
    CursorStep(i, |done|, |cur|, y);
    if y < BottomMargin {
      FullPage(done, cur);
      NewPage(done + [cur]);
    }
    StepRecords(rs, i, done, cur, done', cur', l);
    PlaceRow(done', cur', l);
  }

  /** A page break moves the current rows to the finished pages without
      changing the order of the records, and the next row adds the next
      record. */
  lemma StepRecords(rs: seq<Record>, i: nat, done: seq<seq<Line>>, cur: seq<Line>,
                    done': seq<seq<Line>>, cur': seq<Line>, l: Line)
    requires i < |rs| && Flatten(done) + RecordsOn(cur) == rs[..i] && l.record == rs[i]
    requires (done' == done + [cur] && cur' == []) || (done' == done && cur' == cur)
    ensures Flatten(done') + RecordsOn(cur' + [l]) == rs[..i + 1]
  {
    var before, row := Flatten(done'), RecordsOn(cur');
    if done' != done {
      FlattenPage(done, cur);
      assert row == [];
    }
    assert before + row == rs[..i];
    RecordsOnSnoc(cur', l);
    assert before + (row + [rs[i]]) == (before + row) + [rs[i]];
    assert rs[..i + 1] == rs[..i] + [rs[i]];
  }

  /** Before the loop: no page is finished, and the cursor is at the top of
      the table on the first page. */
  lemma Start(rs: seq<Record>)
    ensures Layout(rs, 0, [], [], TableTop - HeaderGap)
  {
    assert WellPlaced([[]]);
    assert rs[..0] == [];
  }

  /** What the finished loop has laid out: the pages are the finished ones
      and the current one. */
  lemma Finish(rs: seq<Record>, done: seq<seq<Line>>, cur: seq<Line>, y: int, pages: seq<seq<Line>>)
    requires Layout(rs, |rs|, done, cur, y) && pages == done + [cur]
    ensures |pages| == PageCount(|rs|)
    ensures Flatten(pages) == rs
    ensures WellPlaced(pages)
    ensures forall p :: 0 <= p < |pages| - 1 ==> |pages[p]| == Capacity(p)
    ensures |rs| > 0 ==> |pages[|pages| - 1]| > 0
  {
    PagesNeeded(|done|, |cur|);
    FinishRecords(rs, done, cur, pages);
    forall p | 0 <= p < |pages| - 1 ensures |pages[p]| == Capacity(p) {
      assert pages[p] == done[p];
    }
  }

  lemma FinishRecords(rs: seq<Record>, done: seq<seq<Line>>, cur: seq<Line>, pages: seq<seq<Line>>)
    requires Flatten(done) + RecordsOn(cur) == rs[..|rs|] && pages == done + [cur]
    ensures Flatten(pages) == rs
  {
    FlattenPage(done, cur);
    assert rs[..|rs|] == rs;
  }

  /** The row loop of the report: each record is drawn at the cursor, which
      then moves down one row; when the cursor is below the bottom margin a
      new page is started first. The result lists the pages in order, with
      the rows drawn on each. */
  method LayOutRows(rs: seq<Record>) returns (pages: seq<seq<Line>>)
    ensures |pages| == PageCount(|rs|)
    ensures Flatten(pages) == rs
    ensures WellPlaced(pages)
    ensures forall p :: 0 <= p < |pages| - 1 ==> |pages[p]| == Capacity(p)
    ensures |rs| > 0 ==> |pages[|pages| - 1]| > 0
  {
    var done: seq<seq<Line>> := [];
    var cur: seq<Line> := [];
    var y := TableTop - HeaderGap;
    var i := 0;
    Start(rs);
    while i < |rs|
      invariant Layout(rs, i, done, cur, y)
    {
      ghost var done0, cur0, y0 := done, cur, y;
      if y < BottomMargin {
        done := done + [cur];
        cur := [];
        y := PageTop;
      }
      var r := rs[i];
      Step(rs, i, done0, cur0, y0, done, cur, y);
      cur := cur + [Line(y, Truncate(r.name, NameWidth), r)];
      y := y - 20;
      i := i + 1;
    }
    pages := done + [cur];
    Finish(rs, done, cur, y, pages);
  }

  datatype Report =
    | NoData
    | Tabulated(total: nat, averageFlowrate: real, averagePressure: real,
                averageTemperature: real, pages: seq<seq<Line>>)

  /** The report of dataset `id`. Like the view, it neither checks who asks
      nor that the dataset exists: "no data" is shown exactly when no record
      belongs to `id`. Otherwise its figures are those of the stats view and
      its table lists every record of the dataset once, in order. */
  method Render(records: seq<Record>, id: nat) returns (report: Report)
    ensures report.NoData? <==> DatasetStats(records, id).NotFound?
    ensures report.NoData? <==> forall x :: x in records ==> x.dataset != id
    ensures report.Tabulated? ==>
              var s := DatasetStats(records, id).summary;
              report.total == s.totalCount &&
              report.averageFlowrate == s.averageFlowrate &&
              report.averagePressure == s.averagePressure &&
              report.averageTemperature == s.averageTemperature &&
              Flatten(report.pages) == DatasetRecords(records, id) &&
              |report.pages| == PageCount(report.total) &&
              WellPlaced(report.pages) &&
              (forall p :: 0 <= p < |report.pages| - 1 ==> |report.pages[p]| == Capacity(p)) &&
              |report.pages[|report.pages| - 1]| > 0
  {
    var rs := DatasetRecords(records, id);
    if DatasetStats(records, id).NotFound? {
      report := NoData;
    } else {
      var pages := LayOutRows(rs);
      report := Tabulated(|rs|, Mean(rs, Flowrate), Mean(rs, Pressure),
                          Mean(rs, Temperature), pages);
    }
  }
}
