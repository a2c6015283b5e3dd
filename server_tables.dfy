/** The server's table transactions, with each SQLite table held as a
    sequence of rows in insertion (rowid) order: saving an image's
    annotations, publishing an exam with its ordered slides and reading the
    slides back, listing the assets with their annotated flag, and the table
    whitelist of the database inspector. */
module ServerTables {

  import opened Common
  import opened Geometry

  /** A row of `assets` (the file columns are left out). */
  datatype AssetRow = AssetRow(id: string, isAnnotated: int, uploadTime: int)

  /** A row of `annotations`: the region and the asset it belongs to. */
  datatype AnnotationRow = AnnotationRow(assetId: string, region: Region)

  /** A row of `exams`. */
  datatype ExamRow = ExamRow(id: string, examName: string, description: string, status: string, createdAt: int)

  /** A row of `exam_items`: one slide of one exam. */
  datatype ExamItemRow = ExamItemRow(examId: string, assetId: string, orderIndex: int)

  datatype Db = Db(assets: seq<AssetRow>, annotations: seq<AnnotationRow>,
                   exams: seq<ExamRow>, examItems: seq<ExamItemRow>)

  /** An image as `GET /api/assets` lists it. */
  datatype Asset = Asset(name: string, isAnnotated: bool)

  // ---------------------------------------------------------------------
  // Annotations of one image: replace-all inside a transaction

  function AnnotationIds(rows: seq<AnnotationRow>): seq<string>
  {
    seq(|rows|, k requires 0 <= k < |rows| => rows[k].region.id)
  }

  /** The rows the insert loop writes for the posted items, in post order. */
  function RowsFor(assetId: string, items: seq<Region>): seq<AnnotationRow>
  {
    seq(|items|, k requires 0 <= k < |items| => AnnotationRow(assetId, items[k]))
  }

  /** What `DELETE FROM annotations WHERE asset_id = ?` leaves. */
  function Kept(rows: seq<AnnotationRow>, assetId: string): seq<AnnotationRow>
  {
    Filter(rows, (row: AnnotationRow) => row.assetId != assetId)
  }

  /** `UPDATE assets SET is_annotated = ? WHERE id = ?`. */
  function SetAnnotated(assets: seq<AssetRow>, id: string, flag: int): (r: seq<AssetRow>)
    ensures |r| == |assets|
    ensures forall k :: 0 <= k < |r| && assets[k].id == id ==> r[k] == assets[k].(isAnnotated := flag)
    ensures forall k :: 0 <= k < |r| && assets[k].id != id ==> r[k] == assets[k]
  {
    seq(|assets|, k requires 0 <= k < |assets| =>
      if assets[k].id == id then assets[k].(isAnnotated := flag) else assets[k])
  }

  /** Every insert of the loop finds its id free: the primary key of
      `annotations` is the region id, across all images. */
  predicate NoClash(kept: seq<AnnotationRow>, assetId: string, items: seq<Region>)
  {
    forall i :: 0 <= i < |items| ==> FreeAt(kept, assetId, items, i)
  }

  /** The `i`-th insert finds its id free. */
  predicate FreeAt(kept: seq<AnnotationRow>, assetId: string, items: seq<Region>, i: nat)
    requires i < |items|
  {
    items[i].id !in AnnotationIds(kept + RowsFor(assetId, items[..i]))
  }

  /** The ids of the `assets` rows. */
  function AssetIds(rows: seq<AssetRow>): seq<string>
  {
    seq(|rows|, k requires 0 <= k < |rows| => rows[k].id)
  }

  /** The database after a committed save. */
  function Saved(db: Db, assetId: string, items: seq<Region>): Db
  {
    db.(annotations := Kept(db.annotations, assetId) + RowsFor(assetId, items),
        assets := SetAnnotated(db.assets, assetId, if |items| > 0 then 1 else 0))
  }

  /** `POST /api/assets/meta/:imgName`: delete the image's rows, insert the
      posted items one by one, set the annotated flag, all in one
      transaction. An insert whose id is taken, or (with SQLite's foreign
      key enforcement on) whose image has no `assets` row, throws; the
      transaction rolls back and the answer is status 500. */
  method SaveMeta(db: Db, assetId: string, items: seq<Region>) returns (r: Result<Db>)
    ensures r.Ok? <==> NoClash(Kept(db.annotations, assetId), assetId, items)
                       && (|items| > 0 ==> assetId in AssetIds(db.assets))
    ensures r.Ok? ==> r.value == Saved(db, assetId, items)
    ensures r.Err? ==> r.status == 500
  {
    var kept := Kept(db.annotations, assetId);
    var table := kept;
    var i := 0;
    while i < |items|
      invariant 0 <= i <= |items|
      invariant table == kept + RowsFor(assetId, items[..i])
      invariant NoClash(kept, assetId, items[..i])
      invariant i > 0 ==> assetId in AssetIds(db.assets)
    {
      if items[i].id in AnnotationIds(table) {
        assert !FreeAt(kept, assetId, items, i);
        return Err(500);
      }
      if assetId !in AssetIds(db.assets) {
        return Err(500);
      }
      assert items[..i + 1][..i] == items[..i];
      assert RowsFor(assetId, items[..i + 1]) == RowsFor(assetId, items[..i]) + [AnnotationRow(assetId, items[i])];
      var next := items[..i + 1];
      forall j | 0 <= j < i + 1
        ensures FreeAt(kept, assetId, next, j)
      {
        assert next[..j] == items[..j];
        if j < i {
          assert items[..i][..j] == items[..j];
          assert items[..i][j] == items[j];
          assert FreeAt(kept, assetId, items[..i], j);
        }
      }
      table := table + [AnnotationRow(assetId, items[i])];
      i := i + 1;
    }
    assert items[..i] == items;
    r := Ok(db.(annotations := table, assets := SetAnnotated(db.assets, assetId, if |items| > 0 then 1 else 0)));
  }

  /** A save commits exactly when the posted ids are distinct and none of
      them belongs to another image's stored rows. */
  lemma NoClashIff(kept: seq<AnnotationRow>, assetId: string, items: seq<Region>)
    ensures NoClash(kept, assetId, items)
            <==> NoDup(RegionIds(items)) && forall i :: 0 <= i < |items| ==> items[i].id !in AnnotationIds(kept)
  {
    if NoClash(kept, assetId, items) {
      forall i, j | 0 <= i < j < |items| ensures RegionIds(items)[i] != RegionIds(items)[j] {
        assert FreeAt(kept, assetId, items, j);
        var ids := AnnotationIds(kept + RowsFor(assetId, items[..j]));
        assert ids[|kept| + i] == items[i].id;
      }
      forall i | 0 <= i < |items| ensures items[i].id !in AnnotationIds(kept) {
        assert FreeAt(kept, assetId, items, i);
        var ids := AnnotationIds(kept + RowsFor(assetId, items[..i]));
        assert AnnotationIds(kept) == ids[..|kept|];
      }
    }
    if NoDup(RegionIds(items)) && forall i :: 0 <= i < |items| ==> items[i].id !in AnnotationIds(kept) {
      forall i | 0 <= i < |items|
        ensures FreeAt(kept, assetId, items, i)
      {
        var ids := AnnotationIds(kept + RowsFor(assetId, items[..i]));
        forall k | 0 <= k < |ids| ensures ids[k] != items[i].id {
          if k < |kept| {
            assert ids[k] == AnnotationIds(kept)[k];
          } else {
            assert ids[k] == RegionIds(items)[k - |kept|];
            assert items[i].id == RegionIds(items)[i];
          }
        }
      }
    }
  }

  /** The regions stored for `assetId`, as `GET /api/assets/meta/:imgName`
      maps them back. */
  function MetaOf(rows: seq<AnnotationRow>, assetId: string): seq<Region>
  {
    if rows == [] then []
    else (if rows[0].assetId == assetId then [rows[0].region] else []) + MetaOf(rows[1..], assetId)
  }

  lemma {:induction false} MetaOfAppend(a: seq<AnnotationRow>, b: seq<AnnotationRow>, x: string)
    ensures MetaOf(a + b, x) == MetaOf(a, x) + MetaOf(b, x)
  {
    if a == [] {
      assert a + b == b;
    } else {
      var h := if a[0].assetId == x then [a[0].region] else [];
      AppendTail(a, b);
      MetaOfAppend(a[1..], b, x);
      assert MetaOf(a + b, x) == h + MetaOf(a[1..] + b, x);
      assert MetaOf(a, x) == h + MetaOf(a[1..], x);
      AppendAssoc(h, MetaOf(a[1..], x), MetaOf(b, x));
    }
  }

  lemma {:induction false} MetaOfKept(rows: seq<AnnotationRow>, assetId: string, x: string)
    ensures MetaOf(Kept(rows, assetId), x) == if x == assetId then [] else MetaOf(rows, x)
  {
    if rows != [] {
      MetaOfKept(rows[1..], assetId, x);
      var head := if rows[0].assetId != assetId then [rows[0]] else [];
      assert Kept(rows, assetId) == head + Kept(rows[1..], assetId);
      MetaOfAppend(head, Kept(rows[1..], assetId), x);
    }
  }

  lemma {:induction false} MetaOfRowsFor(assetId: string, items: seq<Region>, x: string)
    ensures MetaOf(RowsFor(assetId, items), x) == if x == assetId then items else []
  {
    if items != [] {
      assert RowsFor(assetId, items)[1..] == RowsFor(assetId, items[1..]);
      MetaOfRowsFor(assetId, items[1..], x);
    }
  }

  /** After a committed save the image's stored regions are exactly the
      posted items (the read has no `ORDER BY`, so as a multiset), and every
      other image's regions are as they were. */
  lemma SaveThenRead(db: Db, assetId: string, items: seq<Region>, other: string)
    requires other != assetId
    ensures multiset(MetaOf(Saved(db, assetId, items).annotations, assetId)) == multiset(items)
    ensures MetaOf(Saved(db, assetId, items).annotations, other) == MetaOf(db.annotations, other)
  {
    var kept := Kept(db.annotations, assetId);
    MetaOfAppend(kept, RowsFor(assetId, items), assetId);
    MetaOfAppend(kept, RowsFor(assetId, items), other);
    MetaOfKept(db.annotations, assetId, assetId);
    MetaOfKept(db.annotations, assetId, other);
    MetaOfRowsFor(assetId, items, assetId);
    MetaOfRowsFor(assetId, items, other);
    assert [] + items == items;
    assert MetaOf(db.annotations, other) + [] == MetaOf(db.annotations, other);
  }

  // ---------------------------------------------------------------------
  // The asset listing

  function AssetOf(row: AssetRow): Asset
  {
    Asset(row.id, row.isAnnotated == 1)
  }

  /** `GET /api/assets`: one entry per row, annotated exactly when the
      stored flag is 1. */
  function ListAssets(rows: seq<AssetRow>): (r: seq<Asset>)
    ensures |r| == |rows|
    ensures forall k :: 0 <= k < |r| ==> r[k].name == rows[k].id && (r[k].isAnnotated <==> rows[k].isAnnotated == 1)
  {
    seq(|rows|, k requires 0 <= k < |rows| => AssetOf(rows[k]))
  }

  /** After a committed save the listing shows the image as annotated
      exactly when the post was non-empty; every other entry is unchanged. */
  lemma SaveThenList(db: Db, assetId: string, items: seq<Region>)
    ensures var before, after := ListAssets(db.assets), ListAssets(Saved(db, assetId, items).assets);
            |after| == |before| &&
            forall k :: 0 <= k < |after| ==>
              if before[k].name == assetId then after[k] == Asset(assetId, |items| > 0)
              else after[k] == before[k]
  {
  }

  // ---------------------------------------------------------------------
  // Publishing an exam and reading its slides back

  /** The rows the publish loop writes: slide `i` gets `order_index` i. */
  function ItemsFor(examId: string, slides: seq<string>): seq<ExamItemRow>
  {
    seq(|slides|, i requires 0 <= i < |slides| => ExamItemRow(examId, slides[i], i))
  }

  /** `INSERT OR REPLACE` on `exams`, keyed by id. */
  function ReplaceExam(exams: seq<ExamRow>, e: ExamRow): seq<ExamRow>
  {
    Filter(exams, (x: ExamRow) => x.id != e.id) + [e]
  }

  /** The rows of one exam. */
  function ForExam(examId: string): ExamItemRow -> bool
  {
    (x: ExamItemRow) => x.examId == examId
  }

  /** The rows of every other exam. */
  function NotForExam(examId: string): ExamItemRow -> bool
  {
    (x: ExamItemRow) => x.examId != examId
  }

  function OrderIndexOf(x: ExamItemRow): int
  {
    x.orderIndex
  }

  /** A missing status defaults to "published". */
  function FinalStatus(status: string): string
  {
    if status == "" then "published" else status
  }

  /** The database after a committed publish. */
  function Published(db: Db, examName: string, description: string, slides: seq<string>,
                     status: string, now: int): Db
  {
    db.(exams := ReplaceExam(db.exams, ExamRow(examName, examName, description, FinalStatus(status), now)),
        examItems := Filter(db.examItems, NotForExam(examName)) + ItemsFor(examName, slides))
  }

  /** Every slide names an image that has an `assets` row. */
  predicate SlidesExist(assets: seq<AssetRow>, slides: seq<string>)
  {
    forall i :: 0 <= i < |slides| ==> slides[i] in AssetIds(assets)
  }

  /** `POST /api/exams/publish`: the exam id is its name; the exam row is
      replaced, its old slides deleted and the slides inserted in order. A
      missing name violates `exam_name NOT NULL`, and a slide without an
      `assets` row violates the foreign key of `exam_items` (SQLite's
      enforcement on); either way the transaction rolls back with 500. */
  method Publish(db: Db, examName: Option<string>, description: string, slides: seq<string>,
                 status: string, now: int) returns (r: Result<Db>)
    ensures r.Ok? <==> examName.Some? && SlidesExist(db.assets, slides)
    ensures r.Ok? ==> r.value == Published(db, examName.value, description, slides, status, now)
    ensures r.Err? ==> r.status == 500
  {
    if examName.None? {
      return Err(500);
    }
    var id := examName.value;
    var exams := ReplaceExam(db.exams, ExamRow(id, id, description, FinalStatus(status), now));
    var kept := Filter(db.examItems, NotForExam(id));
    var items := kept;
    var i := 0;
    while i < |slides|
      invariant 0 <= i <= |slides|
      invariant items == kept + ItemsFor(id, slides[..i])
      invariant forall j :: 0 <= j < i ==> slides[j] in AssetIds(db.assets)
    {
      if slides[i] !in AssetIds(db.assets) {
        return Err(500);
      }
      assert ItemsFor(id, slides[..i + 1]) == ItemsFor(id, slides[..i]) + [ExamItemRow(id, slides[i], i)];
      items := items + [ExamItemRow(id, slides[i], i)];
      i := i + 1;
    }
    assert slides[..i] == slides;
    r := Ok(db.(exams := exams, examItems := items));
  }

  function AssetIdsOf(rows: seq<ExamItemRow>): seq<string>
  {
    seq(|rows|, k requires 0 <= k < |rows| => rows[k].assetId)
  }

  /** `SELECT asset_id FROM exam_items WHERE exam_id = ? ORDER BY
      order_index ASC`, mapped to the slide list. */
  function ExamSlides(db: Db, examId: string): (r: seq<string>)
    ensures |r| == |Filter(db.examItems, ForExam(examId))|
    ensures exists rows :: SortedBy(rows, OrderIndexOf) && AssetIdsOf(rows) == r
                           && multiset(rows) == multiset(Filter(db.examItems, ForExam(examId)))
  {
    var rows := SortBy(Filter(db.examItems, ForExam(examId)), OrderIndexOf);
    AssetIdsOf(rows)
  }

  /** After a publish the exam's slide rows are exactly the ones the loop
      wrote. */
  lemma PublishedRows(db: Db, examName: string, description: string, slides: seq<string>,
                      status: string, now: int)
    ensures Filter(Published(db, examName, description, slides, status, now).examItems, ForExam(examName))
            == ItemsFor(examName, slides)
  {
    var kept := Filter(db.examItems, NotForExam(examName));
    var published := ItemsFor(examName, slides);
    FilterAppend(kept, published, ForExam(examName));
    FilterDropsAll(kept, ForExam(examName));
    FilterKeepsAll(published, ForExam(examName));
  }

  /** The written rows are already in `order_index` order and name the
      slides in order. */
  lemma ItemsForOrdered(examId: string, slides: seq<string>)
    ensures SortedBy(ItemsFor(examId, slides), OrderIndexOf)
    ensures AssetIdsOf(ItemsFor(examId, slides)) == slides
  {
  }

  /** Publishing and then reading the exam back gives the slides in the
      order they were published. */
  lemma PublishThenRead(db: Db, examName: string, description: string, slides: seq<string>,
                        status: string, now: int)
    ensures ExamSlides(Published(db, examName, description, slides, status, now), examName) == slides
  {
    PublishedRows(db, examName, description, slides, status, now);
    ItemsForOrdered(examName, slides);
    SortBySorted(ItemsFor(examName, slides), OrderIndexOf);
  }

  /** After a publish the exam's row is stored exactly once, with the
      defaulted status, whatever rows of that id were there before. */
  lemma PublishStoresExamOnce(db: Db, examName: string, description: string, slides: seq<string>,
                              status: string, now: int)
    ensures Filter(Published(db, examName, description, slides, status, now).exams, (x: ExamRow) => x.id == examName)
              == [ExamRow(examName, examName, description, FinalStatus(status), now)]
  {
    var e := ExamRow(examName, examName, description, FinalStatus(status), now);
    var isExam := (x: ExamRow) => x.id == examName;
    var others := Filter(db.exams, (x: ExamRow) => x.id != e.id);
    assert Published(db, examName, description, slides, status, now).exams == others + [e];
    FilterAppend(others, [e], isExam);
    FilterDropsAll(others, isExam);
    FilterSingle(e, isExam);
  }

  // ---------------------------------------------------------------------
  // The database inspector's table whitelist

  const InspectableTables: seq<string> := ["assets", "annotations", "exams", "exam_items", "records", "knowledge"]

  /** `GET /api/admin/db/query/:table`: a name outside the whitelist is
      refused with status 400 before any SQL is built. */
  function CheckTable(table: string): (r: Result<string>)
    ensures r.Ok? ==> r.value == table
    ensures r.Err? ==> r.status == 400
  {
    if table in InspectableTables then Ok(table) else Err(400)
  }

  /** Exactly the six tables pass the check. */
  lemma CheckTableAccepts(table: string)
    ensures CheckTable(table).Ok? <==>
      table == "assets" || table == "annotations" || table == "exams" ||
      table == "exam_items" || table == "records" || table == "knowledge"
  {
  }

  /** A name that passes is made of lower-case letters and underscores only,
      so the table name spliced into the query cannot carry SQL. */
  lemma CheckedNameIsIdentifier(table: string)
    requires CheckTable(table).Ok?
    ensures forall k :: 0 <= k < |table| ==> ('a' <= table[k] <= 'z' || table[k] == '_')
  {
  }
}
