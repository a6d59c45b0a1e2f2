/** The history endpoint. A read returns one collection's most recent rows,
    newest first; a write turns posted items into rows, after an optional
    best-effort mirror of each image to an object store, and stores them
    with one batched INSERT. The table is the class Store: a sequence of
    rows that only ever grows. */
module History {
  import opened Js

  /** `LIMIT 200` of the read. */
  const MaxRows := 200

  /** The table's columns, and so the `?` marks and arguments per inserted row. */
  const ColumnCount := 11

  /** A stored row. id, collection_id and created_at are NOT NULL; every
      other column may hold NULL (None). */
  datatype Row = Row(id: string, collectionId: string, createdAt: int,
                     prompt: Option<string>, style: Option<string>, modelId: Option<string>,
                     aspect: Option<string>, seed: Option<int>, width: Option<int>,
                     height: Option<int>, imageUrl: Option<string>)

  /** A history item as the read returns it. */
  datatype Item = Item(id: string, collectionId: string, createdAt: int, prompt: string,
                       style: Option<string>, modelId: string, aspect: string, seed: int,
                       width: int, height: int, imageUrl: string)

  // ---------------------------------------------------------------------
  // The table
  // ---------------------------------------------------------------------

  /** A value bound to a `?` mark. */
  datatype Value = Text(text: string) | Integer(number: int) | Null

  class Store {
    /** The table's rows, in the order they were inserted. */
    var rows: seq<Row>

    constructor ()
      ensures rows == []
    {
      rows := [];
    }

    /** `db.execute` of a batched INSERT: the arguments are bound to the `?`
        marks in order, eleven to a row. The statement fails and stores
        nothing when marks and arguments differ in number, a value does not
        fit its column, or a new id is already taken (by a stored row or by
        another new one: `id` is the primary key); otherwise the rows are
        appended. Ids stay distinct. */
    method Insert(placeholders: string, args: seq<Value>) returns (ok: bool)
      modifies this
      ensures ok <==> Marks(placeholders) == |args| && Decode(args).Some?
                      && FreshIds(old(rows), Decode(args).value)
      ensures ok ==> rows == old(rows) + Decode(args).value
      ensures !ok ==> rows == old(rows)
      ensures DistinctIds(old(rows)) ==> DistinctIds(rows)
    {
      var decoded := Decode(args);
      ok := Marks(placeholders) == |args| && decoded.Some? && FreshIds(rows, decoded.value);
      if ok {
        if DistinctIds(rows) {
          DistinctAfterInsert(rows, decoded.value);
        }
        rows := rows + decoded.value;
      }
    }
  }

  /** No two rows share an id. */
  predicate DistinctIds(rows: seq<Row>) {
    forall i, j :: 0 <= i < j < |rows| ==> rows[i].id != rows[j].id
  }

  /** The new rows' ids are distinct and none is taken in the table. */
  predicate FreshIds(table: seq<Row>, rows: seq<Row>) {
    && DistinctIds(rows)
    && forall i, k :: 0 <= i < |table| && 0 <= k < |rows| ==> table[i].id != rows[k].id
  }

  /** Appending rows with fresh ids keeps the ids distinct. */
  lemma DistinctAfterInsert(table: seq<Row>, rows: seq<Row>)
    requires DistinctIds(table) && FreshIds(table, rows)
    ensures DistinctIds(table + rows)
  {
    var t := table + rows;
    forall i, j | 0 <= i < j < |t|
      ensures t[i].id != t[j].id
    {
      if j < |table| {
        assert t[i] == table[i] && t[j] == table[j];
      } else if i < |table| {
        assert t[i] == table[i] && t[j] == rows[j - |table|];
      } else {
        assert t[i] == rows[i - |table|] && t[j] == rows[j - |table|];
      }
    }
  }

  // ---------------------------------------------------------------------
  // Read: WHERE collection_id = ? ORDER BY created_at DESC LIMIT 200
  // ---------------------------------------------------------------------

  /** The rows of one collection, in table order. */
  function InCollection(table: seq<Row>, collectionId: string): (r: seq<Row>)
    ensures forall k :: 0 <= k < |r| ==> r[k].collectionId == collectionId
    ensures forall x :: multiset(r)[x] == if x.collectionId == collectionId then multiset(table)[x] else 0
  {
    if table == [] then []
    else
      assert table == [table[0]] + table[1..];
      (if table[0].collectionId == collectionId then [table[0]] else [])
      + InCollection(table[1..], collectionId)
  }

  predicate NewestFirst(s: seq<Row>) {
    forall i, j :: 0 <= i < j < |s| ==> s[i].createdAt >= s[j].createdAt
  }

  /** Inserts x into a newest-first sequence, after the rows as recent as it. */
  function InsertByAge(x: Row, s: seq<Row>): (r: seq<Row>)
    requires NewestFirst(s)
    ensures NewestFirst(r)
    ensures multiset(r) == multiset(s) + multiset{x}
    ensures |r| == |s| + 1
  {
    if s == [] then [x]
    else if x.createdAt > s[0].createdAt then [x] + s
    else
      var rest := InsertByAge(x, s[1..]);
      assert s == [s[0]] + s[1..];
      NoneAboveHead(x, s, rest);
      assert multiset([s[0]] + rest) == multiset{s[0]} + multiset(rest);
      [s[0]] + rest
  }

  /** Rows drawn from the tail of a newest-first sequence, or no newer than
      its head, are no newer than its head. */
  lemma NoneAboveHead(x: Row, s: seq<Row>, rest: seq<Row>)
    requires NewestFirst(s) && s != [] && x.createdAt <= s[0].createdAt
    requires multiset(rest) == multiset(s[1..]) + multiset{x}
    ensures forall k :: 0 <= k < |rest| ==> rest[k].createdAt <= s[0].createdAt
  {
    forall k | 0 <= k < |rest|
      ensures rest[k].createdAt <= s[0].createdAt
    {
      assert rest[k] in multiset(rest);
      if rest[k] != x {
        assert rest[k] in multiset(s[1..]);
        var j :| 0 <= j < |s[1..]| && s[1..][j] == rest[k];
        assert s[j + 1] == rest[k];
      }
    }
  }

  /** The rows newest first; rows of equal age stay in table order. */
  function SortByAge(s: seq<Row>): (r: seq<Row>)
    ensures NewestFirst(r)
    ensures multiset(r) == multiset(s)
    ensures |r| == |s|
  {
    if s == [] then []
    else
      assert s == s[..|s| - 1] + [s[|s| - 1]];
      InsertByAge(s[|s| - 1], SortByAge(s[..|s| - 1]))
  }

  /** Cutting a newest-first sequence leaves out no row newer than one it keeps. */
  lemma CutKeepsNewest(sorted: seq<Row>, n: nat, x: Row)
    requires NewestFirst(sorted) && n <= |sorted|
    requires x in multiset(sorted) - multiset(sorted[..n])
    ensures forall k :: 0 <= k < n ==> x.createdAt <= sorted[k].createdAt
  {
    assert sorted == sorted[..n] + sorted[n..];
    assert multiset(sorted) == multiset(sorted[..n]) + multiset(sorted[n..]);
    assert x in multiset(sorted[n..]);
    var j :| 0 <= j < |sorted[n..]| && sorted[n..][j] == x;
    assert sorted[n + j] == x;
  }

  /** The SELECT of the read: only rows of the collection, newest first, at
      most 200 of them, as many as there are up to that cap, each one a row
      of the table, and no row of the collection left out is newer than a
      row returned. Ties in age are not ordered by the statement; the model
      keeps table order. */
  function Query(table: seq<Row>, collectionId: string): (result: seq<Row>)
    ensures |result| == Min(MaxRows, |InCollection(table, collectionId)|)
    ensures forall k :: 0 <= k < |result| ==> result[k].collectionId == collectionId
    ensures NewestFirst(result)
    ensures multiset(result) <= multiset(table)
    ensures forall x :: x in multiset(table) - multiset(result) && x.collectionId == collectionId ==>
              forall k :: 0 <= k < |result| ==> x.createdAt <= result[k].createdAt
  {
    var sorted := SortByAge(InCollection(table, collectionId));
    var result := sorted[..Min(MaxRows, |sorted|)];
    QueryFacts(table, collectionId, sorted, result);
    result
  }

  /** A prefix of a newest-first sequence is newest first, and the rest of
      the sequence makes up the difference. */
  lemma PrefixFacts(sorted: seq<Row>, n: nat)
    requires NewestFirst(sorted) && n <= |sorted|
    ensures NewestFirst(sorted[..n])
    ensures multiset(sorted) == multiset(sorted[..n]) + multiset(sorted[n..])
  {
    assert sorted == sorted[..n] + sorted[n..];
  }

  /** Every row of a sort of the collection's rows belongs to the collection
      and to the table. */
  lemma FromCollection(table: seq<Row>, collectionId: string, sorted: seq<Row>, n: nat)
    requires multiset(sorted) == multiset(InCollection(table, collectionId)) && n <= |sorted|
    ensures forall k :: 0 <= k < n ==> sorted[..n][k].collectionId == collectionId
    ensures multiset(sorted[..n]) <= multiset(table)
  {
    var matching := InCollection(table, collectionId);
    assert sorted == sorted[..n] + sorted[n..];
    assert multiset(sorted[..n]) <= multiset(sorted);
    forall k | 0 <= k < n
      ensures sorted[..n][k].collectionId == collectionId
    {
      assert sorted[k] in multiset(sorted);
      assert multiset(matching)[sorted[k]] > 0;
    }
  }

  lemma QueryFacts(table: seq<Row>, collectionId: string, sorted: seq<Row>, result: seq<Row>)
    requires NewestFirst(sorted) && multiset(sorted) == multiset(InCollection(table, collectionId))
    requires |result| <= |sorted| && result == sorted[..|result|]
    ensures forall k :: 0 <= k < |result| ==> result[k].collectionId == collectionId
    ensures NewestFirst(result)
    ensures multiset(result) <= multiset(table)
    ensures forall x :: x in multiset(table) - multiset(result) && x.collectionId == collectionId ==>
              forall k :: 0 <= k < |result| ==> x.createdAt <= result[k].createdAt
  {
    var n := |result|;
    PrefixFacts(sorted, n);
    FromCollection(table, collectionId, sorted, n);
    forall x | x in multiset(table) - multiset(result) && x.collectionId == collectionId
      ensures forall k :: 0 <= k < n ==> x.createdAt <= result[k].createdAt
    {
      assert multiset(sorted)[x] == multiset(table)[x];
      CutKeepsNewest(sorted, n, x);
    }
  }

  /** The item for a row: NULL prompt, model id and image URL read as "",
      a NULL aspect as "1:1", NULL numbers as 0; a NULL style stays null. */
  function ToItem(r: Row): (it: Item)
    ensures ItemRow(it) == r <==> NoNulls(r)
  {
    Item(r.id, r.collectionId, r.createdAt, r.prompt.GetOr(""), r.style, r.modelId.GetOr(""),
         r.aspect.GetOr("1:1"), r.seed.GetOr(0), r.width.GetOr(0), r.height.GetOr(0),
         r.imageUrl.GetOr(""))
  }

  /** Every nullable column other than `style` holds a value. */
  predicate NoNulls(r: Row) {
    && r.prompt.Some? && r.modelId.Some? && r.aspect.Some? && r.seed.Some?
    && r.width.Some? && r.height.Some? && r.imageUrl.Some?
  }

  /** The row with an item's values in every column (and its style). */
  function ItemRow(it: Item): Row {
    Row(it.id, it.collectionId, it.createdAt, Some(it.prompt), it.style, Some(it.modelId),
        Some(it.aspect), Some(it.seed), Some(it.width), Some(it.height), Some(it.imageUrl))
  }

  /** A row whose nullable columns are all NULL reads as the defaults. */
  lemma NullRowDefaults(id: string, collectionId: string, createdAt: int)
    ensures ToItem(Row(id, collectionId, createdAt, None, None, None, None, None, None, None, None))
            == Item(id, collectionId, createdAt, "", None, "", "1:1", 0, 0, 0, "")
  {
  }

  datatype GetResponse = Items(items: seq<Item>) | GetFailed(status: int, error: string) {
    function Status(): int {
      if Items? then 200 else status
    }
  }

  /** The `GET` handler. `collectionId` is the query parameter (None when
      absent); `db` is null when no store is configured. */
  function Get(collectionId: Option<string>, db: Store?): (resp: GetResponse)
    reads db
    ensures resp.Status() == 400 <==> collectionId.None? || collectionId.value == ""
    ensures resp.Status() != 400 ==> resp.Items?
    ensures db == null && resp.Items? ==> resp.items == []
    ensures db != null && resp.Items? ==>
              var rows := Query(db.rows, collectionId.value);
              |resp.items| == |rows| && forall k :: 0 <= k < |rows| ==> resp.items[k] == ToItem(rows[k])
    ensures resp.Items? ==>
              && |resp.items| <= MaxRows
              && (forall k :: 0 <= k < |resp.items| ==> resp.items[k].collectionId == collectionId.value)
              && (forall i, j :: 0 <= i < j < |resp.items| ==> resp.items[i].createdAt >= resp.items[j].createdAt)
  {
    if collectionId.None? || collectionId.value == "" then GetFailed(400, "Missing collectionId")
    else if db == null then Items([])
    else
      var rows := Query(db.rows, collectionId.value);
      Items(seq(|rows|, k requires 0 <= k < |rows| => ToItem(rows[k])))
  }

  /** A row appended to a table with no other row of its collection is
      that collection's only row. */
  lemma {:induction false} OnlyMember(table: seq<Row>, row: Row)
    requires forall k :: 0 <= k < |table| ==> table[k].collectionId != row.collectionId
    ensures InCollection(table + [row], row.collectionId) == [row]
    decreases |table|
  {
    if table == [] {
      assert table + [row] == [row];
    } else {
      assert (table + [row])[1..] == table[1..] + [row];
      OnlyMember(table[1..], row);
    }
  }

  /** A collection read right after its first row was written gives back
      exactly that row. */
  lemma OnlyRowOfCollection(table: seq<Row>, row: Row)
    requires forall k :: 0 <= k < |table| ==> table[k].collectionId != row.collectionId
    ensures Query(table + [row], row.collectionId) == [row]
  {
    OnlyMember(table, row);
    SingletonQuery(table + [row], row);
  }

  /** A collection with one row reads as that row. */
  lemma SingletonQuery(t: seq<Row>, row: Row)
    requires InCollection(t, row.collectionId) == [row]
    ensures Query(t, row.collectionId) == [row]
  {
    assert [row][..0] == [];
    assert SortByAge([row]) == [row];
  }

  // ---------------------------------------------------------------------
  // Write
  // ---------------------------------------------------------------------

  /** One posted item. */
  datatype PostItem = PostItem(prompt: string, style: Option<string>, modelId: string,
                               aspect: string, seed: int, width: int, height: int,
                               imageUrl: string, createdAt: Option<int>)

  /** The posted body: `items` is None when it is not an array. */
  datatype PostBody = PostBody(collectionId: Option<string>, items: Option<seq<PostItem>>)

  /** `Crashed` is an exception the handler does not catch, which the
      server answers with 500. */
  datatype PostResponse = Saved | PostFailed(status: int, error: string) | Crashed {
    function Status(): int {
      match this
      case Saved => 200
      case PostFailed(status, _) => status
      case Crashed => 500
    }
  }

  /** A truthy collection id and a non-empty array of items. */
  predicate ValidPayload(body: PostBody) {
    body.collectionId.Some? && body.collectionId.value != ""
    && body.items.Some? && |body.items.value| > 0
  }

  /** What the object store reports for one uploaded file. */
  datatype UploadInfo = UploadInfo(url: Option<string>, ufsUrl: Option<string>)

  /** The `data` member of an upload result: an array, one entry, or absent. */
  datatype UploadData = DataList(infos: seq<UploadInfo>) | DataOne(info: UploadInfo) | DataAbsent

  /** An upload result: an array of entries or an object with `data`. */
  datatype UploadResult = UploadList(infos: seq<UploadInfo>) | UploadObject(data: UploadData)

  /** Mirroring one URL: the fetch or the upload throws, or the upload returns. */
  datatype MirrorOutcome = MirrorThrew | Uploaded(result: UploadResult)

  /** `first`: the array's first entry, else the first entry of a `data`
      array, else the `data` object itself. */
  function FirstUpload(up: UploadResult): Option<UploadInfo> {
    match up
    case UploadList(infos) => if infos == [] then None else Some(infos[0])
    case UploadObject(DataList(infos)) => if infos == [] then None else Some(infos[0])
    case UploadObject(DataOne(info)) => Some(info)
    case UploadObject(DataAbsent) => None
  }

  /** `first?.url || first?.ufsUrl`, when it is truthy. */
  function UploadedUrl(up: UploadResult): (u: Option<string>)
    ensures u.Some? ==> u.value != ""
  {
    match FirstUpload(up)
    case None => None
    case Some(info) =>
      if info.url.Some? && info.url.value != "" then info.url
      else if info.ufsUrl.Some? && info.ufsUrl.value != "" then info.ufsUrl
      else None
  }

  /** The entry is taken from the array first, then from `data`; its `url`
      wins over `ufsUrl` unless it is missing or empty. */
  lemma UploadedUrlOrder(up: UploadResult)
    ensures var infos := if up.UploadList? then up.infos
                         else if up.data.DataList? then up.data.infos
                         else if up.data.DataOne? then [up.data.info]
                         else [];
            UploadedUrl(up) ==
              if infos == [] then None
              else if infos[0].url.Some? && infos[0].url.value != "" then infos[0].url
              else if infos[0].ufsUrl.Some? && infos[0].ufsUrl.value != "" then infos[0].ufsUrl
              else None
  {
  }

  /** The mirror is attempted only with a secret, a non-empty URL and a URL
      not already on the object store. */
  predicate ShouldMirror(secretSet: bool, url: string) {
    secretSet && url != "" && !Includes(url, "utfs.io")
  }

  /** The image URL stored for a posted URL: the uploaded copy's URL when the
      mirror was attempted and yielded a truthy URL, the original otherwise. */
  function MirroredUrl(url: string, secretSet: bool, mirror: string -> MirrorOutcome): (r: string)
    ensures r != url ==>
              && ShouldMirror(secretSet, url)
              && mirror(url).Uploaded?
              && UploadedUrl(mirror(url).result) == Some(r)
    ensures ShouldMirror(secretSet, url) && mirror(url).Uploaded?
            && UploadedUrl(mirror(url).result).Some? ==>
              r == UploadedUrl(mirror(url).result).value
  {
    if ShouldMirror(secretSet, url) then
      match mirror(url)
      case MirrorThrew => url
      case Uploaded(up) => if UploadedUrl(up).Some? then UploadedUrl(up).value else url
    else url
  }

  /** The row for a posted item: every column but `style` is set, and it
      reads back as the item under its id, collection, timestamp (its own
      or else the batch's) and stored URL. */
  function BuildRow(it: PostItem, id: string, collectionId: string, now: int, imageUrl: string): (r: Row)
    ensures NoNulls(r)
    ensures ToItem(r) == Item(id, collectionId, it.createdAt.GetOr(now), it.prompt, it.style,
                              it.modelId, it.aspect, it.seed, it.width, it.height, imageUrl)
  {
    Row(id, collectionId, it.createdAt.GetOr(now), Some(it.prompt), it.style, Some(it.modelId),
        Some(it.aspect), Some(it.seed), Some(it.width), Some(it.height), Some(imageUrl))
  }

  /** The rows of a valid post, one per item in item order; `newId(k)` is
      the fresh id drawn for item k and `now` the batch's one timestamp. */
  function PostedRows(items: seq<PostItem>, collectionId: string, now: int, newId: nat -> string,
                      secretSet: bool, mirror: string -> MirrorOutcome): (rows: seq<Row>)
    ensures |rows| == |items|
    ensures forall k :: 0 <= k < |rows| ==>
              && rows[k].id == newId(k) && rows[k].collectionId == collectionId
              && rows[k].createdAt == items[k].createdAt.GetOr(now)
              && NoNulls(rows[k])
  {
    seq(|items|, k requires 0 <= k < |items| =>
      BuildRow(items[k], newId(k), collectionId, now, MirroredUrl(items[k].imageUrl, secretSet, mirror)))
  }

  /** Each posted item reads back as itself: same fields, the request's
      collection, its fresh id, its own timestamp or else the batch's, and
      the stored image URL. */
  lemma PostedRowsReadBack(items: seq<PostItem>, collectionId: string, now: int, newId: nat -> string,
                           secretSet: bool, mirror: string -> MirrorOutcome, k: nat)
    requires k < |items|
    ensures var rows := PostedRows(items, collectionId, now, newId, secretSet, mirror);
            var it := items[k];
            && |rows| == |items|
            && ToItem(rows[k]) == Item(newId(k), collectionId, it.createdAt.GetOr(now), it.prompt,
                                       it.style, it.modelId, it.aspect, it.seed, it.width,
                                       it.height, MirroredUrl(it.imageUrl, secretSet, mirror))
  {
  }

  /** "?, ?, …, ?" with n marks. */
  function MarkList(n: nat): string
    requires n >= 1
  {
    if n == 1 then "?" else "?, " + MarkList(n - 1)
  }

  /** One row's group, "(?, ?, ?, ?, ?, ?, ?, ?, ?, ?, ?)". */
  const RowMarks := "(" + MarkList(ColumnCount) + ")"

  /** The VALUES list: one group per row, joined by ",". */
  function Placeholders(n: nat): string {
    if n == 0 then "" else if n == 1 then RowMarks else RowMarks + "," + Placeholders(n - 1)
  }

  /** The number of `?` marks in a statement. */
  function Marks(s: string): nat {
    multiset(s)['?']
  }

  lemma MarksAppend(a: string, b: string)
    ensures Marks(a + b) == Marks(a) + Marks(b)
  {
    assert multiset(a + b) == multiset(a) + multiset(b);
  }

  lemma {:induction false} MarkListCount(n: nat)
    requires n >= 1
    ensures Marks(MarkList(n)) == n
  {
    if n > 1 {
      MarkListCount(n - 1);
      MarksAppend("?, ", MarkList(n - 1));
      assert Marks("?, ") == 1;
    }
  }

  /** A row's group holds one mark per column. */
  lemma RowMarksCount()
    ensures Marks(RowMarks) == ColumnCount
  {
    MarkListCount(ColumnCount);
    MarksAppend("(", MarkList(ColumnCount));
    MarksAppend("(" + MarkList(ColumnCount), ")");
  }

  /** n groups hold eleven marks each. */
  lemma {:induction false} PlaceholderMarks(n: nat)
    ensures Marks(Placeholders(n)) == ColumnCount * n
  {
    RowMarksCount();
    if n > 1 {
      var p := Placeholders(n - 1);
      PlaceholderMarks(n - 1);
      assert Placeholders(n) == (RowMarks + ",") + p;
      MarksAppend(RowMarks + ",", p);
      MarksAppend(RowMarks, ",");
      assert Marks(",") == 0;
    }
  }

  /** The statement has exactly as many `?` marks as arguments. */
  lemma MarksMatchArgs(rows: seq<Row>)
    ensures Marks(Placeholders(|rows|)) == |FlatArgs(rows)|
  {
    PlaceholderMarks(|rows|);
  }

  function TextOrNull(o: Option<string>): Value {
    if o.Some? then Text(o.value) else Null
  }

  function IntegerOrNull(o: Option<int>): Value {
    if o.Some? then Integer(o.value) else Null
  }

  /** The eleven arguments of one row, in column order. */
  function RowValues(r: Row): (vs: seq<Value>)
    ensures |vs| == ColumnCount
  {
    [Text(r.id), Text(r.collectionId), Integer(r.createdAt), TextOrNull(r.prompt),
     TextOrNull(r.style), TextOrNull(r.modelId), TextOrNull(r.aspect), IntegerOrNull(r.seed),
     IntegerOrNull(r.width), IntegerOrNull(r.height), TextOrNull(r.imageUrl)]
  }

  /** `flatArgs`: every row's arguments, row after row. */
  function FlatArgs(rows: seq<Row>): (args: seq<Value>)
    ensures |args| == ColumnCount * |rows|
  {
    if rows == [] then [] else RowValues(rows[0]) + FlatArgs(rows[1..])
  }

  /** The arguments are laid out row-major: argument 11k + c is column c of row k. */
  lemma {:induction false} FlatArgsRowMajor(rows: seq<Row>, k: nat, c: nat)
    requires k < |rows| && c < ColumnCount
    ensures FlatArgs(rows)[ColumnCount * k + c] == RowValues(rows[k])[c]
  {
    if k > 0 {
      FlatArgsRowMajor(rows[1..], k - 1, c);
      assert ColumnCount * k + c == ColumnCount + (ColumnCount * (k - 1) + c);
    }
  }

  function DecodeText(v: Value): Option<Option<string>> {
    match v
    case Text(t) => Some(Some(t))
    case Null => Some(None)
    case Integer(_) => None
  }

  function DecodeInteger(v: Value): Option<Option<int>> {
    match v
    case Integer(i) => Some(Some(i))
    case Null => Some(None)
    case Text(_) => None
  }

  /** The row that eleven arguments fill, if each fits its column. */
  function DecodeRow(vs: seq<Value>): (r: Option<Row>)
    requires |vs| == ColumnCount
    ensures r.Some? ==> RowValues(r.value) == vs
  {
    if !vs[0].Text? || !vs[1].Text? || !vs[2].Integer? then None
    else
      var prompt, style, modelId, aspect := DecodeText(vs[3]), DecodeText(vs[4]), DecodeText(vs[5]), DecodeText(vs[6]);
      var seed, width, height := DecodeInteger(vs[7]), DecodeInteger(vs[8]), DecodeInteger(vs[9]);
      var imageUrl := DecodeText(vs[10]);
      if prompt.None? || style.None? || modelId.None? || aspect.None? || seed.None?
         || width.None? || height.None? || imageUrl.None? then None
      else
        Some(Row(vs[0].text, vs[1].text, vs[2].number, prompt.value, style.value, modelId.value,
                 aspect.value, seed.value, width.value, height.value, imageUrl.value))
  }

  /** How the statement reads its arguments back into rows. */
  function Decode(args: seq<Value>): (r: Option<seq<Row>>)
    ensures r.Some? ==> FlatArgs(r.value) == args
    decreases |args|
  {
    if args == [] then Some([])
    else if |args| < ColumnCount then None
    else
      match DecodeRow(args[..ColumnCount])
      case None => None
      case Some(r) =>
        match Decode(args[ColumnCount..])
        case None => None
        case Some(rest) => Some([r] + rest)
  }

  lemma DecodeRowValues(r: Row)
    ensures DecodeRow(RowValues(r)) == Some(r)
  {
  }

  /** The arguments of a batch are read back as exactly that batch. */
  lemma {:induction false} DecodeFlatArgs(rows: seq<Row>)
    ensures Decode(FlatArgs(rows)) == Some(rows)
  {
    if rows != [] {
      var head, rest := RowValues(rows[0]), FlatArgs(rows[1..]);
      var args := head + rest;
      assert FlatArgs(rows) == args;
      assert args[..ColumnCount] == head;
      assert args[ColumnCount..] == rest;
      DecodeRowValues(rows[0]);
      DecodeFlatArgs(rows[1..]);
      assert rows == [rows[0]] + rows[1..];
    }
  }

  /** The `POST` handler. `db` is null when no store is configured; `body`
      is None when the request's JSON cannot be read or is `null` (both
      throw outside any `try`); `secretSet` says whether the object store's
      secret is configured; `mirror` re-hosts one URL; `newId(k)` is the
      fresh id drawn for item k and `now` the time read once for the batch.
      A failing INSERT throws as well, and nothing is stored. */
  method HandlePost(db: Store?, body: Option<PostBody>, secretSet: bool,
                    mirror: string -> MirrorOutcome, newId: nat -> string, now: int)
    returns (resp: PostResponse)
    modifies db
    ensures db == null ==> resp == PostFailed(501, "Database not configured")
    ensures db != null && body.None? ==> resp == Crashed && db.rows == old(db.rows)
    ensures db != null && body.Some? && !ValidPayload(body.value) ==>
              resp == PostFailed(400, "Invalid payload") && db.rows == old(db.rows)
    ensures db != null && body.Some? && ValidPayload(body.value) ==>
              var posted := PostedRows(body.value.items.value, body.value.collectionId.value,
                                       now, newId, secretSet, mirror);
              && (resp == Saved <==> FreshIds(old(db.rows), posted))
              && (resp == Saved ==> db.rows == old(db.rows) + posted)
              && (resp != Saved ==> resp == Crashed && db.rows == old(db.rows))
    ensures db != null && DistinctIds(old(db.rows)) ==> DistinctIds(db.rows)
  {
    if db == null {
      return PostFailed(501, "Database not configured");
    }
    if body.None? {
      return Crashed;
    }
    if !ValidPayload(body.value) {
      return PostFailed(400, "Invalid payload");
    }
    var items, collectionId := body.value.items.value, body.value.collectionId.value;
    var rows: seq<Row> := [];
    var i := 0;
    while i < |items|
      invariant 0 <= i <= |items|
      invariant rows == PostedRows(items[..i], collectionId, now, newId, secretSet, mirror)
    {
      var it := items[i];
      var imageUrl := it.imageUrl;
      if secretSet && imageUrl != "" && !Includes(imageUrl, "utfs.io") {
        match mirror(imageUrl)
        case MirrorThrew =>
        case Uploaded(up) =>
          var url := UploadedUrl(up);
          if url.Some? {
            imageUrl := url.value;
          }
      }
      assert imageUrl == MirroredUrl(it.imageUrl, secretSet, mirror);
      rows := rows + [BuildRow(it, newId(i), collectionId, now, imageUrl)];
      i := i + 1;
    }
    assert items[..i] == items;
    var placeholders := Placeholders(|rows|);
    var args := FlatArgs(rows);
    MarksMatchArgs(rows);
    DecodeFlatArgs(rows);
    var ok := db.Insert(placeholders, args);
    resp := if ok then Saved else Crashed;
  }

  /** A read of a collection whose one row is `row`. */
  lemma ReadOneRow(db: Store, row: Row)
    requires row.collectionId != "" && Query(db.rows, row.collectionId) == [row]
    ensures Get(Some(row.collectionId), db) == Items([ToItem(row)])
  {
  }

  /** A write of one item to a collection that has no rows yet, without
      the object-store secret, followed by a read of that collection: the
      read gives back exactly that item, under its fresh id and with its
      own timestamp or else the write's. */
  method WriteThenRead(db: Store, collectionId: string, it: PostItem, mirror: string -> MirrorOutcome,
                       newId: nat -> string, now: int)
    returns (resp: PostResponse, read: GetResponse)
    requires collectionId != ""
    requires forall k :: 0 <= k < |db.rows| ==> db.rows[k].collectionId != collectionId
    requires forall k :: 0 <= k < |db.rows| ==> db.rows[k].id != newId(0)
    modifies db
    ensures resp == Saved
    ensures read == Items([Item(newId(0), collectionId, it.createdAt.GetOr(now), it.prompt, it.style,
                                it.modelId, it.aspect, it.seed, it.width, it.height, it.imageUrl)])
  {
    var before := db.rows;
    var body := PostBody(Some(collectionId), Some([it]));
    assert ValidPayload(body);
    var row := BuildRow(it, newId(0), collectionId, now, it.imageUrl);
    assert MirroredUrl(it.imageUrl, false, mirror) == it.imageUrl;
    assert PostedRows([it], collectionId, now, newId, false, mirror) == [row];
    assert FreshIds(before, [row]);
    resp := HandlePost(db, Some(body), false, mirror, newId, now);
    assert db.rows == before + [row];
    OnlyRowOfCollection(before, row);
    ReadOneRow(db, row);
    read := Get(Some(collectionId), db);
  }
}
