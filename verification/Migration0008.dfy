/** Migration 0008 of the alerts table (alembic/versions/0008_ftp_copy_integrity.py): the
    table is rebuilt with one more foreign-key column, and back. A row is a map from column
    to value, and each copy is the statement's own INSERT list and SELECT list, matched
    position by position. */
module Migration0008 {
  datatype Column =
    | Id | AlertType | Severity | EntityType | ServerId | DiskId | BackupJobId | JobRunId | RestoreOperationId
    | BackupRecordId | Title | Message | Status | Channel | DeliveredTelegramAt | DeliveredWebAt | AcknowledgedBy
    | AcknowledgedAt | ResolvedAt | ResolvedNote | CreatedAt | UpdatedAt

  datatype Value = Null | Number(n: int) | Text(s: string)

  /** The stored columns; entity_key is generated from them. */
  type Row = map<Column, Value>

  /** An item of a SELECT list. */
  datatype Item = Of(column: Column) | LiteralNull

  // ---------------------------------------------------------------- the two statements

  const UP_INTO: seq<Column> := [
    Id, AlertType, Severity, EntityType,
    ServerId, DiskId, BackupJobId, JobRunId, RestoreOperationId, BackupRecordId,
    Title, Message, Status, Channel,
    DeliveredTelegramAt, DeliveredWebAt,
    AcknowledgedBy, AcknowledgedAt, ResolvedAt, ResolvedNote,
    CreatedAt, UpdatedAt]

  const UP_FROM: seq<Item> := [
    Of(Id), Of(AlertType), Of(Severity), Of(EntityType),
    Of(ServerId), Of(DiskId), Of(BackupJobId), Of(JobRunId), Of(RestoreOperationId), LiteralNull,
    Of(Title), Of(Message), Of(Status), Of(Channel),
    Of(DeliveredTelegramAt), Of(DeliveredWebAt),
    Of(AcknowledgedBy), Of(AcknowledgedAt), Of(ResolvedAt), Of(ResolvedNote),
    Of(CreatedAt), Of(UpdatedAt)]

  const DOWN_INTO: seq<Column> := [
    Id, AlertType, Severity, EntityType,
    ServerId, DiskId, BackupJobId, JobRunId, RestoreOperationId,
    Title, Message, Status, Channel,
    DeliveredTelegramAt, DeliveredWebAt,
    AcknowledgedBy, AcknowledgedAt, ResolvedAt, ResolvedNote,
    CreatedAt, UpdatedAt]

  const DOWN_FROM: seq<Item> := [
    Of(Id), Of(AlertType), Of(Severity), Of(EntityType),
    Of(ServerId), Of(DiskId), Of(BackupJobId), Of(JobRunId), Of(RestoreOperationId),
    Of(Title), Of(Message), Of(Status), Of(Channel),
    Of(DeliveredTelegramAt), Of(DeliveredWebAt),
    Of(AcknowledgedBy), Of(AcknowledgedAt), Of(ResolvedAt), Of(ResolvedNote),
    Of(CreatedAt), Of(UpdatedAt)]

  function Get(row: Row, c: Column): Value { if c in row then row[c] else Null }

  function Evaluate(row: Row, item: Item): Value {
    match item
    case Of(c) => Get(row, c)
    case LiteralNull => Null
  }

  /** The row INSERT INTO t (into) SELECT from makes of a source row. */
  function Copied(row: Row, into: seq<Column>, from: seq<Item>): Row
    requires |into| == |from|
  {
    if into == [] then map[]
    else
      var n := |into| - 1;
      Copied(row, into[..n], from[..n])[into[n] := Evaluate(row, from[n])]
  }

  function Up(rows: seq<Row>): (r: seq<Row>)
    ensures |r| == |rows|
  {
    seq(|rows|, i requires 0 <= i < |rows| => Copied(rows[i], UP_INTO, UP_FROM))
  }

  function Down(rows: seq<Row>): (r: seq<Row>)
    ensures |r| == |rows|
  {
    seq(|rows|, i requires 0 <= i < |rows| => Copied(rows[i], DOWN_INTO, DOWN_FROM))
  }

  // ---------------------------------------------------------------- what the copies do

  /** Each position feeds its own column from the same column, the new one from NULL. */
  ghost predicate Paired(into: seq<Column>, from: seq<Item>) {
    |into| == |from| && forall i :: 0 <= i < |into| ==> from[i] == Source(into[i])
  }

  function Source(c: Column): Item { if c == BackupRecordId then LiteralNull else Of(c) }

  /** A paired copy has exactly the listed columns and keeps each of them. */
  lemma {:induction false} PairedCopyKeeps(row: Row, into: seq<Column>, from: seq<Item>)
    requires Paired(into, from)
    ensures forall c :: c in Copied(row, into, from) <==> c in into
    ensures forall c :: c in into ==> Copied(row, into, from)[c] == if c == BackupRecordId then Null else Get(row, c)
  {
    if into != [] {
      var n := |into| - 1;
      PairedCopyKeeps(row, into[..n], from[..n]);
      assert into == into[..n] + [into[n]];
    }
  }

  lemma UpListsMatch()
    ensures Paired(UP_INTO, UP_FROM)
  {
    UpFirstHalf();
    UpSecondHalf();
  }

  lemma UpFirstHalf()
    ensures forall i :: 0 <= i < 11 ==> UP_FROM[i] == Source(UP_INTO[i])
  {
  }

  lemma UpSecondHalf()
    ensures forall i :: 11 <= i < 22 ==> UP_FROM[i] == Source(UP_INTO[i])
  {
  }

  lemma DownListsMatch()
    ensures Paired(DOWN_INTO, DOWN_FROM)
  {
    DownFirstHalf();
    DownSecondHalf();
  }

  lemma DownFirstHalf()
    ensures forall i :: 0 <= i < 11 ==> DOWN_FROM[i] == Source(DOWN_INTO[i])
  {
  }

  lemma DownSecondHalf()
    ensures forall i :: 11 <= i < 21 ==> DOWN_FROM[i] == Source(DOWN_INTO[i])
  {
  }

  /** Each table has exactly the columns its INSERT names. */
  lemma UpNamesEveryColumn(c: Column)
    ensures c in UP_INTO
  {
    match c
    case Id => assert UP_INTO[0] == c;
    case AlertType => assert UP_INTO[1] == c;
    case Severity => assert UP_INTO[2] == c;
    case EntityType => assert UP_INTO[3] == c;
    case ServerId => assert UP_INTO[4] == c;
    case DiskId => assert UP_INTO[5] == c;
    case BackupJobId => assert UP_INTO[6] == c;
    case JobRunId => assert UP_INTO[7] == c;
    case RestoreOperationId => assert UP_INTO[8] == c;
    case BackupRecordId => assert UP_INTO[9] == c;
    case Title => assert UP_INTO[10] == c;
    case Message => assert UP_INTO[11] == c;
    case Status => assert UP_INTO[12] == c;
    case Channel => assert UP_INTO[13] == c;
    case DeliveredTelegramAt => assert UP_INTO[14] == c;
    case DeliveredWebAt => assert UP_INTO[15] == c;
    case AcknowledgedBy => assert UP_INTO[16] == c;
    case AcknowledgedAt => assert UP_INTO[17] == c;
    case ResolvedAt => assert UP_INTO[18] == c;
    case ResolvedNote => assert UP_INTO[19] == c;
    case CreatedAt => assert UP_INTO[20] == c;
    case UpdatedAt => assert UP_INTO[21] == c;
  }

  lemma DownNamesEveryOtherColumn(c: Column)
    requires c != BackupRecordId
    ensures c in DOWN_INTO
  {
    match c
    case Id => assert DOWN_INTO[0] == c;
    case AlertType => assert DOWN_INTO[1] == c;
    case Severity => assert DOWN_INTO[2] == c;
    case EntityType => assert DOWN_INTO[3] == c;
    case ServerId => assert DOWN_INTO[4] == c;
    case DiskId => assert DOWN_INTO[5] == c;
    case BackupJobId => assert DOWN_INTO[6] == c;
    case JobRunId => assert DOWN_INTO[7] == c;
    case RestoreOperationId => assert DOWN_INTO[8] == c;
    case Title => assert DOWN_INTO[9] == c;
    case Message => assert DOWN_INTO[10] == c;
    case Status => assert DOWN_INTO[11] == c;
    case Channel => assert DOWN_INTO[12] == c;
    case DeliveredTelegramAt => assert DOWN_INTO[13] == c;
    case DeliveredWebAt => assert DOWN_INTO[14] == c;
    case AcknowledgedBy => assert DOWN_INTO[15] == c;
    case AcknowledgedAt => assert DOWN_INTO[16] == c;
    case ResolvedAt => assert DOWN_INTO[17] == c;
    case ResolvedNote => assert DOWN_INTO[18] == c;
    case CreatedAt => assert DOWN_INTO[19] == c;
    case UpdatedAt => assert DOWN_INTO[20] == c;
  }

  lemma DownNamesNoRecord()
    ensures BackupRecordId !in DOWN_INTO
  {
  }

  /** A row of the table before 0008, and of the table after it. */
  ghost predicate Narrow(row: Row) { forall c :: c in row <==> c != BackupRecordId }

  ghost predicate Wide(row: Row) { forall c: Column :: c in row }

  lemma UpKeepsColumns(row: Row)
    ensures Wide(Copied(row, UP_INTO, UP_FROM))
    ensures forall c: Column :: Copied(row, UP_INTO, UP_FROM)[c] == if c == BackupRecordId then Null else Get(row, c)
  {
    UpListsMatch();
    forall c: Column
      ensures c in UP_INTO
    {
      UpNamesEveryColumn(c);
    }
    PairedCopyKeeps(row, UP_INTO, UP_FROM);
  }

  lemma DownKeepsColumns(row: Row)
    ensures Narrow(Copied(row, DOWN_INTO, DOWN_FROM))
    ensures forall c: Column | c != BackupRecordId :: Copied(row, DOWN_INTO, DOWN_FROM)[c] == Get(row, c)
  {
    DownListsMatch();
    DownNamesNoRecord();
    forall c: Column | c != BackupRecordId
      ensures c in DOWN_INTO
    {
      DownNamesEveryOtherColumn(c);
    }
    PairedCopyKeeps(row, DOWN_INTO, DOWN_FROM);
  }

  lemma RowUpThenDown(row: Row)
    requires Narrow(row)
    ensures Copied(Copied(row, UP_INTO, UP_FROM), DOWN_INTO, DOWN_FROM) == row
  {
    UpKeepsColumns(row);
    DownKeepsColumns(Copied(row, UP_INTO, UP_FROM));
  }

  lemma RowDownThenUp(row: Row)
    requires Wide(row)
    ensures Copied(Copied(row, DOWN_INTO, DOWN_FROM), UP_INTO, UP_FROM) == row[BackupRecordId := Null]
  {
    DownKeepsColumns(row);
    UpKeepsColumns(Copied(row, DOWN_INTO, DOWN_FROM));
  }

  // ---------------------------------------------------------------- entity_key, the CHECKs and the index

  const FIVE_KEYS: seq<Column> := [ServerId, DiskId, BackupJobId, JobRunId, RestoreOperationId]

  const SIX_KEYS: seq<Column> := [ServerId, DiskId, BackupJobId, JobRunId, RestoreOperationId, BackupRecordId]

  function Coalesce(row: Row, columns: seq<Column>): Value {
    if columns == [] then Null
    else if Get(row, columns[0]) != Null then Get(row, columns[0])
    else Coalesce(row, columns[1..])
  }

  function NonNulls(row: Row, columns: seq<Column>): nat {
    if columns == [] then 0
    else NonNulls(row, columns[1..]) + if Get(row, columns[0]) != Null then 1 else 0
  }

  const KINDS: set<string> := {"server", "disk", "backup_job", "job_run", "restore_operation"}

  predicate ChecksFive(row: Row) {
    (exists k :: k in KINDS && Get(row, EntityType) == Text(k)) && NonNulls(row, FIVE_KEYS) <= 1
  }

  predicate ChecksSix(row: Row) {
    (exists k :: k in KINDS + {"backup_record"} && Get(row, EntityType) == Text(k)) && NonNulls(row, SIX_KEYS) <= 1
  }

  /** The entity type that owns a foreign-key column. */
  function OwnerOf(c: Column): string {
    match c
    case ServerId => "server"
    case DiskId => "disk"
    case BackupJobId => "backup_job"
    case JobRunId => "job_run"
    case RestoreOperationId => "restore_operation"
    case _ => "backup_record"
  }

  /** Only the column of the row's own entity type may be set. */
  ghost predicate HelperBuilt(row: Row) {
    forall c | c in SIX_KEYS && Get(row, c) != Null :: Get(row, EntityType) == Text(OwnerOf(c))
  }

  /** What uq_alerts_active_dedupe compares. */
  datatype DedupeKey = DedupeKey(kind: Value, key: Value, alertType: Value, status: Value)

  function KeyOf(row: Row, columns: seq<Column>): DedupeKey {
    DedupeKey(Get(row, EntityType), Coalesce(row, columns), Get(row, AlertType), Get(row, Status))
  }

  predicate Clash(a: DedupeKey, b: DedupeKey) { a == b && a.status == Text("ACTIVE") && a.key != Null }

  /** The index can be created over these rows. */
  predicate Deduped(rows: seq<Row>, columns: seq<Column>) {
    forall i | 0 <= i < |rows| :: forall k | i < k < |rows| :: !Clash(KeyOf(rows[i], columns), KeyOf(rows[k], columns))
  }

  lemma SixIsFiveThenRecord(row: Row)
    ensures Coalesce(row, SIX_KEYS) ==
            if Coalesce(row, FIVE_KEYS) != Null then Coalesce(row, FIVE_KEYS) else Get(row, BackupRecordId)
    ensures NonNulls(row, SIX_KEYS) == NonNulls(row, FIVE_KEYS) + if Get(row, BackupRecordId) != Null then 1 else 0
  {
    CoalesceAppend(row, FIVE_KEYS, BackupRecordId);
    assert SIX_KEYS == FIVE_KEYS + [BackupRecordId];
  }

  lemma {:induction false} CoalesceAppend(row: Row, columns: seq<Column>, c: Column)
    ensures Coalesce(row, columns + [c]) ==
            if Coalesce(row, columns) != Null then Coalesce(row, columns) else Get(row, c)
    ensures NonNulls(row, columns + [c]) == NonNulls(row, columns) + if Get(row, c) != Null then 1 else 0
  {
    if columns == [] {
      assert [c][1..] == [];
    } else {
      CoalesceAppend(row, columns[1..], c);
      assert (columns + [c])[1..] == columns[1..] + [c];
    }
  }

  /** Rows that agree on the columns of a key have the same key and the same count. */
  lemma {:induction false} SameColumns(a: Row, b: Row, columns: seq<Column>)
    requires forall c :: c in columns ==> Get(a, c) == Get(b, c)
    ensures Coalesce(a, columns) == Coalesce(b, columns) && NonNulls(a, columns) == NonNulls(b, columns)
  {
    if columns != [] {
      SameColumns(a, b, columns[1..]);
    }
  }

  predicate IsText(value: Value, s: string) { value == Text(s) }

  /** The first of these columns that is not NULL, in this order. */
  predicate FirstSet(row: Row, key: Value) {
    if Get(row, ServerId) != Null then key == Get(row, ServerId)
    else if Get(row, DiskId) != Null then key == Get(row, DiskId)
    else if Get(row, BackupJobId) != Null then key == Get(row, BackupJobId)
    else if Get(row, JobRunId) != Null then key == Get(row, JobRunId)
    else key == Get(row, RestoreOperationId)
  }

  lemma FiveKeysMean(row: Row)
    ensures FirstSet(row, Coalesce(row, FIVE_KEYS))
  {
    var four: seq<Column> := [DiskId, BackupJobId, JobRunId, RestoreOperationId];
    var three: seq<Column> := [BackupJobId, JobRunId, RestoreOperationId];
    var two: seq<Column> := [JobRunId, RestoreOperationId];
    var one: seq<Column> := [RestoreOperationId];
    assert FIVE_KEYS[1..] == four && four[1..] == three && three[1..] == two && two[1..] == one && one[1..] == [];
    assert Coalesce(row, one) == Get(row, RestoreOperationId);
    assert Coalesce(row, two) == if Get(row, JobRunId) != Null then Get(row, JobRunId) else Coalesce(row, one);
    assert Coalesce(row, three) == if Get(row, BackupJobId) != Null then Get(row, BackupJobId) else Coalesce(row, two);
    assert Coalesce(row, four) == if Get(row, DiskId) != Null then Get(row, DiskId) else Coalesce(row, three);
  }

  /** The two CHECKs: a known entity type, and at most one of the references. */
  lemma ChecksMean(row: Row)
    ensures ChecksFive(row) <==>
              IsKnown(Get(row, EntityType)) && NonNulls(row, FIVE_KEYS) <= 1
    ensures ChecksSix(row) <==>
              (IsKnown(Get(row, EntityType)) || IsText(Get(row, EntityType), "backup_record"))
              && NonNulls(row, FIVE_KEYS) + (if Get(row, BackupRecordId) != Null then 1 else 0) <= 1
  {
    SixIsFiveThenRecord(row);
    assert "server" in KINDS && "disk" in KINDS && "backup_job" in KINDS && "job_run" in KINDS;
    assert "restore_operation" in KINDS && "backup_record" in KINDS + {"backup_record"};
  }

  predicate IsKnown(value: Value) {
    IsText(value, "server") || IsText(value, "disk") || IsText(value, "backup_job") || IsText(value, "job_run")
    || IsText(value, "restore_operation")
  }

  lemma UpRowKey(row: Row)
    ensures KeyOf(Copied(row, UP_INTO, UP_FROM), SIX_KEYS) == KeyOf(row, FIVE_KEYS)
    ensures ChecksFive(row) ==> ChecksSix(Copied(row, UP_INTO, UP_FROM))
  {
    var after := Copied(row, UP_INTO, UP_FROM);
    UpKeepsColumns(row);
    SameColumns(row, after, FIVE_KEYS);
    SixIsFiveThenRecord(after);
  }

  lemma DownRowKey(row: Row)
    ensures KeyOf(Copied(row, DOWN_INTO, DOWN_FROM), FIVE_KEYS) == KeyOf(row, FIVE_KEYS)
    ensures ChecksFive(Copied(row, DOWN_INTO, DOWN_FROM)) <==> ChecksFive(row)
  {
    DownKeepsColumns(row);
    SameColumns(row, Copied(row, DOWN_INTO, DOWN_FROM), FIVE_KEYS);
  }

  /** Of the rows the wide table accepts, the narrow one refuses those of the new type. */
  lemma NarrowRefusesRecords(row: Row)
    requires ChecksSix(row)
    ensures ChecksFive(row) <==> Get(row, EntityType) != Text("backup_record")
  {
    SixIsFiveThenRecord(row);
    assert "backup_record" !in KINDS;
  }

  // ---------------------------------------------------------------- round trips

  /** Upgrade then downgrade is the identity on every table, and the upgrade keeps the
      dedupe key of every row. */
  lemma UpThenDown(rows: seq<Row>)
    requires forall i :: 0 <= i < |rows| ==> Narrow(rows[i])
    ensures Down(Up(rows)) == rows
    ensures forall i :: 0 <= i < |rows| ==> KeyOf(Up(rows)[i], SIX_KEYS) == KeyOf(rows[i], FIVE_KEYS)
  {
    forall i | 0 <= i < |rows|
      ensures Down(Up(rows))[i] == rows[i] && KeyOf(Up(rows)[i], SIX_KEYS) == KeyOf(rows[i], FIVE_KEYS)
    {
      RowUpThenDown(rows[i]);
      UpRowKey(rows[i]);
    }
  }

  /** The other way round it is the identity exactly on tables with no backup_record_id. */
  lemma DownThenUp(rows: seq<Row>)
    requires forall i :: 0 <= i < |rows| ==> Wide(rows[i])
    ensures Up(Down(rows)) == rows <==> forall i :: 0 <= i < |rows| ==> Get(rows[i], BackupRecordId) == Null
  {
    forall i | 0 <= i < |rows|
      ensures Up(Down(rows))[i] == rows[i][BackupRecordId := Null]
      ensures Up(Down(rows))[i] == rows[i] <==> rows[i][BackupRecordId] == Null
    {
      RowDownThenUp(rows[i]);
      assert rows[i][BackupRecordId] == Null ==> rows[i][BackupRecordId := Null] == rows[i];
    }
  }

  /** A downgrade keeps the dedupe key of every helper-built row it accepts, so it keeps the
      uniqueness of such rows in both directions. */
  lemma DownKeepsHelperKeys(rows: seq<Row>)
    requires forall i :: 0 <= i < |rows| ==> HelperBuilt(rows[i]) && Get(rows[i], EntityType) != Text("backup_record")
    ensures forall i :: 0 <= i < |rows| ==> KeyOf(Down(rows)[i], FIVE_KEYS) == KeyOf(rows[i], SIX_KEYS)
    ensures Deduped(Down(rows), FIVE_KEYS) <==> Deduped(rows, SIX_KEYS)
  {
    forall i | 0 <= i < |rows|
      ensures KeyOf(Down(rows)[i], FIVE_KEYS) == KeyOf(rows[i], SIX_KEYS)
    {
      DownRowKey(rows[i]);
      SixIsFiveThenRecord(rows[i]);
      assert BackupRecordId in SIX_KEYS;
    }
  }

  /** For any row at all the key either stays or becomes NULL, so the index can always be
      created again; and the CHECKs of the old table are then only about the entity type. */
  lemma DownStaysValid(rows: seq<Row>)
    requires Deduped(rows, SIX_KEYS) && forall i :: 0 <= i < |rows| ==> ChecksSix(rows[i])
    ensures Deduped(Down(rows), FIVE_KEYS)
    ensures forall i :: 0 <= i < |rows| ==>
              (ChecksFive(Down(rows)[i]) <==> Get(rows[i], EntityType) != Text("backup_record"))
  {
    forall i | 0 <= i < |rows|
      ensures KeyOf(Down(rows)[i], FIVE_KEYS) == KeyOf(rows[i], FIVE_KEYS)
      ensures Coalesce(rows[i], FIVE_KEYS) != Null ==> Coalesce(rows[i], SIX_KEYS) == Coalesce(rows[i], FIVE_KEYS)
      ensures ChecksFive(Down(rows)[i]) <==> Get(rows[i], EntityType) != Text("backup_record")
    {
      DownRowKey(rows[i]);
      NarrowRefusesRecords(rows[i]);
      SixIsFiveThenRecord(rows[i]);
    }
    forall i, k | 0 <= i < k < |rows|
      ensures !Clash(KeyOf(Down(rows)[i], FIVE_KEYS), KeyOf(Down(rows)[k], FIVE_KEYS))
    {
      assert !Clash(KeyOf(rows[i], SIX_KEYS), KeyOf(rows[k], SIX_KEYS));
    }
  }

  lemma UpStaysValid(rows: seq<Row>)
    requires Deduped(rows, FIVE_KEYS) && forall i :: 0 <= i < |rows| ==> ChecksFive(rows[i])
    ensures Deduped(Up(rows), SIX_KEYS) && forall i :: 0 <= i < |rows| ==> ChecksSix(Up(rows)[i])
  {
    forall i | 0 <= i < |rows|
      ensures KeyOf(Up(rows)[i], SIX_KEYS) == KeyOf(rows[i], FIVE_KEYS) && ChecksSix(Up(rows)[i])
    {
      UpRowKey(rows[i]);
    }
  }

  // ---------------------------------------------------------------- the steps on the tables

  /** `six`: the table has the new column; `deduped`: the unique index exists. */
  datatype Table = Table(rows: seq<Row>, six: bool, deduped: bool) {
    function Keys(): seq<Column> { if six then SIX_KEYS else FIVE_KEYS }

    predicate Accepts(row: Row) { if six then ChecksSix(row) else ChecksFive(row) }

    /** What the CHECK constraints and the unique index allow. */
    predicate Valid() { deduped && Deduped(rows, Keys()) && forall i | 0 <= i < |rows| :: Accepts(rows[i]) }
  }

  class Database {
    var tables: map<string, Table>

    constructor (rows: seq<Row>)
      requires Table(rows, false, true).Valid()
      ensures tables == map["alerts" := Table(rows, false, true)]
    {
      tables := map["alerts" := Table(rows, false, true)];
    }

    /** CREATE UNIQUE INDEX on the alerts table. */
    method CreateDedupeIndex() returns (ok: bool)
      requires "alerts" in tables
      modifies this
      ensures ok <==> Deduped(old(tables)["alerts"].rows, old(tables)["alerts"].Keys())
      ensures tables == if ok then old(tables)["alerts" := old(tables)["alerts"].(deduped := true)] else old(tables)
    {
      var alerts := tables["alerts"];
      if !Deduped(alerts.rows, alerts.Keys()) {
        return false;
      }
      tables := tables["alerts" := alerts.(deduped := true)];
      return true;
    }

    /** Always succeeds, adding a NULL backup_record_id to every row. */
    method Upgrade() returns (ok: bool)
      requires "alerts" in tables && tables["alerts"].Valid() && !tables["alerts"].six && "alerts_new" !in tables
      modifies this
      ensures ok && "alerts" in tables && tables["alerts"].Valid()
      ensures tables == old(tables)["alerts" := Table(Up(old(tables)["alerts"].rows), true, true)]
    {
      ghost var start := tables;
      var source := tables["alerts"].rows;
      UpStaysValid(source);
      tables := tables["alerts_new" := Table([], true, false)];
      var copied: seq<Row> := [];
      for i := 0 to |source|
        invariant copied == Up(source)[..i]
        invariant tables == start["alerts_new" := Table([], true, false)]
      {
        var row := Copied(source[i], UP_INTO, UP_FROM);
        assert row == Up(source)[i];
        if !tables["alerts_new"].Accepts(row) {
          return false;
        }
        copied := copied + [row];
      }
      assert copied == Up(source);
      tables := tables["alerts_new" := Table(copied, true, false)];
      tables := tables - {"alerts"};
      tables := tables["alerts" := tables["alerts_new"]] - {"alerts_new"};
      ok := CreateDedupeIndex();
      assert tables == start["alerts" := Table(copied, true, true)];
    }

    /** Fails exactly when some row, of whatever status, has entity type backup_record, and
        then leaves the alerts table alone. */
    method Downgrade() returns (ok: bool)
      requires "alerts" in tables && tables["alerts"].Valid() && tables["alerts"].six && "alerts_old" !in tables
      modifies this
      ensures
        var rows := old(tables)["alerts"].rows;
        && (ok <==> forall i :: 0 <= i < |rows| ==> Get(rows[i], EntityType) != Text("backup_record"))
        && "alerts" in tables && tables["alerts"].Valid()
        && tables["alerts"] == if ok then Table(Down(rows), false, true) else old(tables)["alerts"]
    {
      ghost var start := tables;
      var source := tables["alerts"].rows;
      DownStaysValid(source);
      tables := tables["alerts_old" := Table([], false, false)];
      var copied: seq<Row> := [];
      for i := 0 to |source|
        invariant copied == Down(source)[..i]
        invariant tables == start["alerts_old" := Table([], false, false)]
        invariant forall k :: 0 <= k < i ==> Get(source[k], EntityType) != Text("backup_record")
      {
        var row := Copied(source[i], DOWN_INTO, DOWN_FROM);
        assert row == Down(source)[i];
        if !tables["alerts_old"].Accepts(row) {
          return false;   // the whole INSERT .. SELECT is undone
        }
        copied := copied + [row];
      }
      assert copied == Down(source);
      tables := tables["alerts_old" := Table(copied, false, false)];
      tables := tables - {"alerts"};
      tables := tables["alerts" := tables["alerts_old"]] - {"alerts_old"};
      ok := CreateDedupeIndex();
    }
  }
}
