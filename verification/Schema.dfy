/**
 Opening the database (Open and migrate in internal/store/store.go, with schema.sql): a statement at a time,
 each attempt able to die between any two statements.
 */
module Schema {
  import opened Prelude

  datatype Table =
    | Events | Sessions | Warnings | AdminUsageDays | AdminCostDays | AdminRateLimits
    | QuotaSnapshots | Prices | ModelCatalog | BodyArchive | IngestState

  /** Columns of `events`: those every version has, and those a migration added. */
  datatype Column = FirstVersion | TranscriptContent | TranscriptRole | ReqToolNames

  datatype Index = SessionId | SessionStarted | StartedAt | CostSource | Stats | ArchiveDay

  function TableOf(i: Index): Table {
    if i == ArchiveDay then BodyArchive else Events
  }

  datatype Disk = Disk(version: int, tables: set<Table>, columns: set<Column>, indexes: set<Index>)

  datatype Ddl =
    | CreateTable(table: Table)     // IF NOT EXISTS
    | CreateIndex(index: Index)     // IF NOT EXISTS
    | DropIndex(index: Index)       // IF EXISTS
    | AddColumn(column: Column)     // ALTER TABLE events

  const VERSION: int := 5

  const CURRENT: set<Column> := {FirstVersion, TranscriptContent, TranscriptRole, ReqToolNames}

  /** schema.sql, statement by statement. */
  const SCHEMA: seq<Ddl> := [
    CreateTable(Events), CreateIndex(SessionStarted), CreateIndex(StartedAt), CreateIndex(CostSource),
    CreateIndex(Stats), CreateTable(Sessions), CreateTable(Warnings), CreateTable(AdminUsageDays),
    CreateTable(AdminCostDays), CreateTable(AdminRateLimits), CreateTable(QuotaSnapshots), CreateTable(Prices),
    CreateTable(ModelCatalog), CreateTable(BodyArchive), CreateIndex(ArchiveDay), CreateTable(IngestState)]

  /** MIGRATIONS[v] takes version v to v + 1. */
  const MIGRATIONS: seq<seq<Ddl>> := [
    [AddColumn(TranscriptContent), AddColumn(TranscriptRole)],
    [CreateIndex(SessionStarted), DropIndex(SessionId)],
    [AddColumn(ReqToolNames)],
    [CreateIndex(Stats)],
    [CreateTable(BodyArchive), CreateIndex(ArchiveDay)]]

  /** One statement; None is an SQL error: no such table, or duplicate column name. */
  function Exec(d: Disk, s: Ddl): Option<Disk> {
    match s
    case CreateTable(t) =>
      if t in d.tables then Some(d)
      else Some(d.(tables := d.tables + {t}, columns := if t == Events then CURRENT else d.columns))
    case CreateIndex(i) =>
      if i in d.indexes then Some(d)
      else if TableOf(i) !in d.tables || (TableOf(i) == Events && FirstVersion !in d.columns) then None
      else Some(d.(indexes := d.indexes + {i}))
    case DropIndex(i) => Some(d.(indexes := d.indexes - {i}))
    case AddColumn(c) =>
      if Events !in d.tables || c in d.columns then None else Some(d.(columns := d.columns + {c}))
  }

  function ExecAll(d: Disk, ss: seq<Ddl>): Option<Disk> {
    if ss == [] then Some(d)
    else match ExecAll(d, ss[..|ss| - 1])
      case None => None
      case Some(d') => Exec(d', ss[|ss| - 1])
  }

  /** One migration's transaction, the version bump inside it. */
  function Migrated(d: Disk, v: int): Option<Disk>
    requires 0 <= v < VERSION
  {
    match ExecAll(d, MIGRATIONS[v])
    case None => None
    case Some(d') => Some(d'.(version := v + 1))
  }

  // ---------- one attempt, a statement at a time ----------

  datatype Pc =
    | Probe
    | Stamp
    | Create(next: nat)
    | ReadVersion
    | Migrate(from: int)
    | Opened
    | SqlError
    | TooNew

  datatype At = At(disk: Disk, pc: Pc)

  function Next(a: At): At {
    var d := a.disk;
    match a.pc
    case Probe => At(d, if Events in d.tables then Create(0) else Stamp)
    case Stamp => At(d.(version := VERSION), Create(0))
    case Create(i) =>
      if i >= |SCHEMA| then At(d, ReadVersion)
      else (match Exec(d, SCHEMA[i]) case None => At(d, SqlError) case Some(d') => At(d', Create(i + 1)))
    case ReadVersion => At(d, if d.version > VERSION then TooNew else Migrate(d.version))
    case Migrate(v) =>
      if v >= VERSION then At(d, Opened)
      else if v < 0 then At(d, SqlError)   // an index out of range: the binary never wrote such a version
      else (match Migrated(d, v) case None => At(d, SqlError) case Some(d') => At(d', Migrate(v + 1)))
    case Opened => a
    case SqlError => a
    case TooNew => a
  }

  function Steps(a: At, n: nat): At {
    if n == 0 then a else Next(Steps(a, n - 1))
  }

  /** An Open that died after n steps; with n large enough, one that ran to its end. */
  function Cut(d: Disk, n: nat): At {
    Steps(At(d, Probe), n)
  }

  /** Enough steps for any attempt to end. */
  const ENOUGH: nat := |SCHEMA| + 12

  /** The file after a series of attempts, each dead after so many steps. */
  function AfterCrashes(d: Disk, cuts: seq<nat>): Disk {
    if cuts == [] then d else Cut(AfterCrashes(d, cuts[..|cuts| - 1]), cuts[|cuts| - 1]).disk
  }

  // ---------- shapes of the file ----------

  function ColumnsAt(v: int): set<Column> {
    {FirstVersion} + (if v >= 1 then {TranscriptContent, TranscriptRole} else {})
    + (if v >= 3 then {ReqToolNames} else {})
  }

  /** A file without `events`, or one an older or equal version left behind, other tables and indexes aside. */
  predicate Healthy(d: Disk) {
    Events in d.tables ==>
      0 <= d.version <= VERSION && d.columns == ColumnsAt(d.version) && (d.version >= 2 ==> SessionId !in d.indexes)
  }

  predicate NoStrayIndex(d: Disk) {
    Events !in d.tables ==> SessionId !in d.indexes
  }

  predicate Has(d: Disk, s: Ddl) {
    match s
    case CreateTable(t) => t in d.tables
    case CreateIndex(i) => i in d.indexes
    case _ => true
  }

  predicate HasFirst(d: Disk, n: nat) {
    forall i :: 0 <= i < n && i < |SCHEMA| ==> Has(d, SCHEMA[i])
  }

  /** The whole current schema at the current version. */
  predicate Whole(d: Disk) {
    && d.version == VERSION && d.columns == CURRENT && SessionId !in d.indexes
    && HasFirst(d, |SCHEMA|)
  }

  predicate StepInv(a: At) {
    && Healthy(a.disk) && NoStrayIndex(a.disk)
    && match a.pc
       case Probe => true
       case Stamp => Events !in a.disk.tables
       case Create(i) =>
         i <= |SCHEMA| && HasFirst(a.disk, i) && (Events in a.disk.tables || (i == 0 && a.disk.version == VERSION))
       case ReadVersion => HasFirst(a.disk, |SCHEMA|) && Events in a.disk.tables
       case Migrate(v) => HasFirst(a.disk, |SCHEMA|) && Events in a.disk.tables && v == a.disk.version
       case Opened => Whole(a.disk)
       case SqlError => false
       case TooNew => false
  }

  /** Nothing of the current schema goes away. */
  predicate Grows(d: Disk, d': Disk) {
    d.tables <= d'.tables && d.indexes - {SessionId} <= d'.indexes
  }

  lemma ExecGrows(d: Disk, s: Ddl)
    requires Exec(d, s).Some? && (s.DropIndex? ==> s.index == SessionId)
    ensures Grows(d, Exec(d, s).value)
  {
  }

  lemma SchemaNamesNoOldIndex(i: nat)
    requires i < |SCHEMA|
    ensures SCHEMA[i] != CreateIndex(SessionId) && (SCHEMA[i].CreateTable? || SCHEMA[i].CreateIndex?)
    ensures SCHEMA[i] == CreateTable(Events) ==> i == 0
    ensures SCHEMA[i] == CreateIndex(ArchiveDay) ==> i == 14
  {
  }

  lemma GrowthKeepsSchema(d: Disk, d': Disk, n: nat)
    requires HasFirst(d, n) && Grows(d, d')
    ensures HasFirst(d', n)
  {
    forall i | 0 <= i < n && i < |SCHEMA|
      ensures Has(d', SCHEMA[i])
    {
      SchemaNamesNoOldIndex(i);
      assert Has(d, SCHEMA[i]);
    }
  }

  lemma SchemaTables()
    ensures SCHEMA[0] == CreateTable(Events) && SCHEMA[13] == CreateTable(BodyArchive) && |SCHEMA| == 16
  {
  }

  lemma CreateKeeps(d: Disk, i: nat)
    requires i < |SCHEMA| && StepInv(At(d, Create(i)))
    ensures Exec(d, SCHEMA[i]).Some?
    ensures StepInv(At(Exec(d, SCHEMA[i]).value, Create(i + 1)))
  {
    SchemaTables();
    SchemaNamesNoOldIndex(i);
    if i >= 1 {
      assert Has(d, SCHEMA[0]);
    }
    if i >= 14 {
      assert Has(d, SCHEMA[13]);
    }
    ExecGrows(d, SCHEMA[i]);
    var d' := Exec(d, SCHEMA[i]).value;
    GrowthKeepsSchema(d, d', i);
    assert Has(d', SCHEMA[i]);
  }

  lemma ExecPair(d: Disk, a: Ddl, b: Ddl)
    ensures ExecAll(d, [a]) == Exec(d, a)
    ensures ExecAll(d, [a, b]) == match Exec(d, a) case None => None case Some(d') => Exec(d', b)
  {
    var none: seq<Ddl> := [a][..0];
    assert none == [] && [a, b][..1] == [a];
  }

  /** Each migration, applied to a healthy file at its version: never an error, and never an existing column. */
  lemma MigrationLands(d: Disk, v: int)
    requires 0 <= v < VERSION && Healthy(d) && Events in d.tables && d.version == v
    requires SessionStarted in d.indexes && Stats in d.indexes && BodyArchive in d.tables && ArchiveDay in d.indexes
    ensures Migrated(d, v) == Some(Disk(v + 1, d.tables, ColumnsAt(v + 1),
                                        if v == 1 then d.indexes - {SessionId} else d.indexes))
  {
    if v == 0 {
      ExecPair(d, AddColumn(TranscriptContent), AddColumn(TranscriptRole));
      assert ColumnsAt(0) + {TranscriptContent} + {TranscriptRole} == ColumnsAt(1);
    } else if v == 1 {
      ExecPair(d, CreateIndex(SessionStarted), DropIndex(SessionId));
    } else if v == 2 {
      ExecPair(d, AddColumn(ReqToolNames), AddColumn(ReqToolNames));
      assert ColumnsAt(2) + {ReqToolNames} == ColumnsAt(3);
    } else if v == 3 {
      ExecPair(d, CreateIndex(Stats), CreateIndex(Stats));
    } else {
      ExecPair(d, CreateTable(BodyArchive), CreateIndex(ArchiveDay));
    }
  }

  lemma MigrateKeeps(d: Disk, v: int)
    requires 0 <= v < VERSION && StepInv(At(d, Migrate(v)))
    ensures Migrated(d, v).Some?
    ensures StepInv(At(Migrated(d, v).value, Migrate(v + 1)))
  {
    SchemaAll(d);
    MigrationLands(d, v);
    GrowthKeepsSchema(d, Migrated(d, v).value, |SCHEMA|);
  }

  lemma SchemaAll(d: Disk)
    requires HasFirst(d, |SCHEMA|)
    ensures SessionStarted in d.indexes && Stats in d.indexes && BodyArchive in d.tables && ArchiveDay in d.indexes
  {
    assert Has(d, SCHEMA[1]) && Has(d, SCHEMA[4]) && Has(d, SCHEMA[13]) && Has(d, SCHEMA[14]);
  }

  /** Every step of every attempt keeps the file healthy, and no statement ever fails. */
  lemma NextKeeps(a: At)
    requires StepInv(a)
    ensures StepInv(Next(a))
  {
    match a.pc
    case Create(i) =>
      if i < |SCHEMA| {
        CreateKeeps(a.disk, i);
      }
    case Migrate(v) =>
      if v < VERSION {
        MigrateKeeps(a.disk, v);
      }
    case _ =>
  }

  lemma {:induction false} StepsKeep(a: At, n: nat)
    requires StepInv(a)
    ensures StepInv(Steps(a, n))
    decreases n
  {
    if n > 0 {
      StepsKeep(a, n - 1);
      NextKeeps(Steps(a, n - 1));
    }
  }

  // ---------- every attempt ends ----------

  /** Steps still to come, at most. */
  function Left(a: At): int {
    match a.pc
    case Probe => |SCHEMA| + 10
    case Stamp => |SCHEMA| + 9
    case Create(i) => |SCHEMA| - i + 8
    case ReadVersion => 7
    case Migrate(v) => if v < 0 then 1 else if v < VERSION then VERSION - v + 1 else 1
    case _ => 0
  }

  lemma NextCountsDown(a: At)
    requires Left(a) > 0 && (a.pc.Create? ==> a.pc.next <= |SCHEMA|) && (a.pc.Migrate? ==> a.pc.from <= VERSION)
    ensures Left(Next(a)) < Left(a)
    ensures Next(a).pc.Create? ==> Next(a).pc.next <= |SCHEMA|
    ensures Next(a).pc.Migrate? ==> Next(a).pc.from <= VERSION
  {
  }

  lemma {:induction false} StepsEnd(a: At, n: nat)
    requires (a.pc.Create? ==> a.pc.next <= |SCHEMA|) && (a.pc.Migrate? ==> a.pc.from <= VERSION)
    ensures var b := Steps(a, n);
            && Left(b) <= (if Left(a) >= n then Left(a) - n else 0)
            && (b.pc.Create? ==> b.pc.next <= |SCHEMA|) && (b.pc.Migrate? ==> b.pc.from <= VERSION)
    decreases n
  {
    if n > 0 {
      StepsEnd(a, n - 1);
      if Left(Steps(a, n - 1)) > 0 {
        NextCountsDown(Steps(a, n - 1));
      }
    }
  }

  predicate Ended(pc: Pc) {
    pc == Opened || pc == SqlError || pc == TooNew
  }

  lemma LeftZero(a: At)
    requires Left(a) <= 0 && (a.pc.Create? ==> a.pc.next <= |SCHEMA|) && (a.pc.Migrate? ==> a.pc.from <= VERSION)
    ensures Ended(a.pc)
  {
  }

  /** Any attempt that is not cut short ends, on any file at all. */
  lemma OpenTerminates(d: Disk, n: nat)
    requires n >= ENOUGH
    ensures Ended(Cut(d, n).pc)
  {
    StepsEnd(At(d, Probe), n);
    LeftZero(Cut(d, n));
  }

  // ---------- recovery ----------

  lemma {:induction false} CrashesKeep(d: Disk, cuts: seq<nat>)
    requires Healthy(d) && NoStrayIndex(d)
    ensures Healthy(AfterCrashes(d, cuts)) && NoStrayIndex(AfterCrashes(d, cuts))
    decreases |cuts|
  {
    if cuts != [] {
      CrashesKeep(d, cuts[..|cuts| - 1]);
      StepsKeep(At(AfterCrashes(d, cuts[..|cuts| - 1]), Probe), cuts[|cuts| - 1]);
    }
  }

  /**
   From a fresh file or one any earlier version left, after any number of attempts each dead after any number
   of statements, the next attempt that is let run opens the whole current schema; and none of the statements
   any of them ran ever failed.
   */
  lemma CrashRecoverable(d: Disk, cuts: seq<nat>, n: nat)
    requires Healthy(d) && NoStrayIndex(d)
    ensures Cut(AfterCrashes(d, cuts), n).pc != SqlError && Cut(AfterCrashes(d, cuts), n).pc != TooNew
    ensures n >= ENOUGH ==> Cut(AfterCrashes(d, cuts), n).pc == Opened && Whole(Cut(AfterCrashes(d, cuts), n).disk)
  {
    CrashesKeep(d, cuts);
    StepsKeep(At(AfterCrashes(d, cuts), Probe), n);
    if n >= ENOUGH {
      OpenTerminates(AfterCrashes(d, cuts), n);
    }
  }

  /** A whole file is left exactly as it is. */
  lemma OpenWholeChangesNothing(d: Disk, n: nat)
    requires Whole(d)
    ensures Cut(d, n).disk == d
  {
    assert Has(d, SCHEMA[0]);
    WholeSteps(d, n);
  }

  lemma {:induction false} WholeSteps(d: Disk, n: nat)
    requires Whole(d) && Events in d.tables
    ensures Cut(d, n).disk == d
    ensures var pc := Cut(d, n).pc;
            pc == Probe || pc.Create? || pc == ReadVersion || pc == Migrate(VERSION) || pc == Opened
    decreases n
  {
    if n > 0 {
      WholeSteps(d, n - 1);
      var pc := Cut(d, n - 1).pc;
      if pc.Create? && pc.next < |SCHEMA| {
        SchemaNamesNoOldIndex(pc.next);
        assert Has(d, SCHEMA[pc.next]);
      }
    }
  }

  /** A file a newer binary wrote is refused, its version and its columns untouched, cut anywhere. */
  lemma NewerRefused(d: Disk, n: nat)
    requires Events in d.tables && d.version > VERSION && FirstVersion in d.columns
    ensures Cut(d, n).disk.version == d.version && Cut(d, n).disk.columns == d.columns
    ensures n >= ENOUGH ==> Cut(d, n).pc == TooNew
  {
    NewerSteps(d, n);
    if n >= ENOUGH {
      OpenTerminates(d, n);
    }
  }

  predicate NewerInv(d: Disk, a: At) {
    && a.disk.version == d.version && a.disk.columns == d.columns && Events in a.disk.tables
    && match a.pc
       case Probe => true
       case Create(i) => i <= |SCHEMA| && (i >= 14 ==> BodyArchive in a.disk.tables)
       case ReadVersion => true
       case TooNew => true
       case _ => false
  }

  lemma {:induction false} NewerSteps(d: Disk, n: nat)
    requires Events in d.tables && d.version > VERSION && FirstVersion in d.columns
    ensures NewerInv(d, Cut(d, n))
    decreases n
  {
    if n > 0 {
      NewerSteps(d, n - 1);
      SchemaTables();
      var pc := Cut(d, n - 1).pc;
      if pc.Create? && pc.next < |SCHEMA| {
        SchemaNamesNoOldIndex(pc.next);
      }
    }
  }

  // ---------- why the stamp comes first ----------

  /** `events` created with every column, and the version still 0: what stamping after the schema can leave. */
  predicate Stranded(d: Disk) {
    Events in d.tables && d.version == 0 && d.columns == CURRENT
  }

  /** An empty file on which the schema ran, unstamped, and died after at least one statement. */
  lemma {:induction false} UnstampedCrashStrands(d: Disk, k: nat)
    requires d == Disk(0, {}, {}, {}) && 1 <= k <= |SCHEMA|
    ensures ExecAll(d, SCHEMA[..k]).Some? && Stranded(ExecAll(d, SCHEMA[..k]).value)
    ensures k >= 14 ==> BodyArchive in ExecAll(d, SCHEMA[..k]).value.tables
    decreases k
  {
    SchemaTables();
    SchemaNamesNoOldIndex(k - 1);
    assert SCHEMA[..k][..k - 1] == SCHEMA[..k - 1];
    assert SCHEMA[..k][k - 1] == SCHEMA[k - 1];
    if k > 1 {
      UnstampedCrashStrands(d, k - 1);
    } else {
      assert SCHEMA[..0] == [];
    }
  }

  predicate StrandedInv(a: At) {
    && Stranded(a.disk)
    && match a.pc
       case Probe => true
       case Create(i) => i <= |SCHEMA| && (i >= 14 ==> BodyArchive in a.disk.tables)
       case ReadVersion => true
       case Migrate(v) => v == 0
       case SqlError => true
       case _ => false
  }

  /** Such a file never opens again: every attempt, cut or not, leaves it stranded, and a full one fails. */
  lemma StrandedForever(d: Disk, n: nat)
    requires Stranded(d)
    ensures Stranded(Cut(d, n).disk) && (n >= ENOUGH ==> Cut(d, n).pc == SqlError)
  {
    StrandedSteps(d, n);
    if n >= ENOUGH {
      OpenTerminates(d, n);
    }
  }

  lemma DuplicateColumn(d: Disk)
    requires Stranded(d)
    ensures Migrated(d, 0) == None
  {
    ExecPair(d, AddColumn(TranscriptContent), AddColumn(TranscriptRole));
  }

  lemma {:induction false} StrandedSteps(d: Disk, n: nat)
    requires Stranded(d)
    ensures StrandedInv(Cut(d, n))
    decreases n
  {
    if n > 0 {
      StrandedSteps(d, n - 1);
      SchemaTables();
      var a := Cut(d, n - 1);
      DuplicateColumn(a.disk);
      if a.pc.Create? && a.pc.next < |SCHEMA| {
        SchemaNamesNoOldIndex(a.pc.next);
      }
    }
  }

  // ---------- the code ----------

  /** The file, and the statements left before the process dies. */
  class Database {
    var disk: Disk
    var left: nat

    constructor (disk: Disk, left: nat)
      ensures this.disk == disk && this.left == left
    {
      this.disk, this.left := disk, left;
    }

    /** True when the process is still alive to take one more step. */
    method Alive() returns (alive: bool)
      modifies this`left
      ensures alive <==> old(left) > 0
      ensures left == if alive then old(left) - 1 else 0
    {
      alive := left > 0;
      if alive {
        left := left - 1;
      }
    }

    /** Open, up to and including migrate; Died when the statements ran out first. */
    method Open() returns (end: Pc)
      modifies this
      ensures At(disk, end) == Cut(old(disk), old(left))
    {
      ghost var start, n := disk, left;
      var alive := Alive();
      if !alive {
        return Probe;
      }
      assert Steps(At(start, Probe), 0) == At(start, Probe);
      assert Cut(start, n - left) == Next(At(start, Probe));
      if Events !in disk.tables {
        alive := Alive();
        if !alive {
          return Stamp;
        }
        disk := disk.(version := VERSION);
      }
      var created;
      created, end := ExecSchema(start, n);
      if created {
        end := MigrateAll(start, n);
      }
    }

    /** The unconditional exec of schema.sql. */
    method ExecSchema(ghost start: Disk, ghost n: nat) returns (created: bool, end: Pc)
      requires left <= n && Cut(start, n - left) == At(disk, Create(0))
      modifies this
      ensures created ==> left < n && Cut(start, n - left) == At(disk, ReadVersion)
      ensures !created ==> At(disk, end) == Cut(start, n)
    {
      var i := 0;
      while i < |SCHEMA|
        invariant 0 <= i <= |SCHEMA| && left <= n
        invariant Cut(start, n - left) == At(disk, Create(i))
      {
        var alive := Alive();
        if !alive {
          return false, Create(i);
        }
        var done := Exec(disk, SCHEMA[i]);
        if done.None? {
          EndSticks(start, n - left, n);
          return false, SqlError;
        }
        disk := done.value;
        i := i + 1;
      }
      var alive := Alive();
      if !alive {
        return false, Create(i);
      }
      return true, ReadVersion;
    }

    /** migrate: one transaction per version step. */
    method MigrateAll(ghost start: Disk, ghost n: nat) returns (end: Pc)
      requires left < n && Cut(start, n - left) == At(disk, ReadVersion)
      modifies this
      ensures At(disk, end) == Cut(start, n)
    {
      var alive := Alive();
      if !alive {
        return ReadVersion;
      }
      if disk.version > VERSION {
        EndSticks(start, n - left, n);
        return TooNew;
      }
      var v := disk.version;
      while v < VERSION
        invariant v <= VERSION && left <= n
        invariant Cut(start, n - left) == At(disk, Migrate(v))
      {
        alive := Alive();
        if !alive {
          return Migrate(v);
        }
        var done := if v < 0 then None else Migrated(disk, v);
        if done.None? {
          EndSticks(start, n - left, n);
          return SqlError;
        }
        disk := done.value;
        v := v + 1;
      }
      alive := Alive();
      if !alive {
        return Migrate(v);
      }
      EndSticks(start, n - left, n);
      end := Opened;
    }
  }

  lemma {:induction false} EndSticks(d: Disk, m: nat, n: nat)
    requires m <= n && Ended(Cut(d, m).pc)
    ensures Cut(d, n) == Cut(d, m)
    decreases n
  {
    if m < n {
      EndSticks(d, m, n - 1);
    }
  }
}
