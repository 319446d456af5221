/** The freeze of data-quality scans: the row triggers that migration 019 emits for scans,
    their sources and their issues, in both dialects. */
module ScanGuards {
  import opened Texts
  import opened Sql

  // ---------------------------------------------------------------- rows and tables

  /** `sc_data_quality_scans`; `results` are the columns no trigger looks at. */
  datatype Scan = Scan(id: Text, owner: Option<int>, source: Text, sourceIds: Text, createdAt: Option<int>,
                       status: Text, checkedAt: Option<int>, results: seq<Text>)

  /** `sc_data_quality_issues`; issues older than the scans have no scan. */
  datatype Issue = Issue(id: Text, scan: Text, details: seq<Text>)

  /** `sources` are the rows of `sc_data_quality_scan_sources`: scan and source. */
  datatype Db = Db(scans: map<string, Scan>, sources: set<(string, string)>, issues: map<string, Issue>)

  datatype Op =
    | InsertScan(scan: Scan) | UpdateScan(key: string, scan: Scan) | DeleteScan(key: string)
    | InsertSource(scanId: Text, sourceId: Text)
    | UpdateSource(old_: (string, string), scanId: Text, sourceId: Text) | DeleteSource(old_: (string, string))
    | InsertIssue(issue: Issue) | UpdateIssue(key: string, issue: Issue) | DeleteIssue(key: string)

  // ---------------------------------------------------------------- the triggers

  /** The same condition in both dialects. */
  function InsertScanRaises(new_: Scan): Truth
  {
    Either(Ne(new_.status, Some("checking")), Not(IsNull(new_.checkedAt)))
  }

  function Decides(new_: Scan): Truth { Either(Eq(new_.status, Some("completed")), Eq(new_.status, Some("failed"))) }

  /** PostgreSQL compares the JSON column as text, SQLite stores it as text. */
  function UpdateScanRaises(old_: Scan, new_: Scan): Truth
  {
    Either(Ne(old_.status, Some("checking")), Either(Differs(new_.id, old_.id), Either(Differs(new_.owner, old_.owner),
      Either(Differs(new_.source, old_.source), Either(Differs(new_.sourceIds, old_.sourceIds),
        Either(Differs(new_.createdAt, old_.createdAt), Both(Decides(new_), IsNull(new_.checkedAt))))))))
  }

  /** `SELECT 1 FROM sc_data_quality_scans WHERE id = NEW.scan_id AND status = 'checking'`. */
  predicate FindsChecking(db: Db, scanId: Text)
  {
    exists k :: k in db.scans && Both(Eq(db.scans[k].id, scanId), Eq(db.scans[k].status, Some("checking"))) == True
  }

  /** The PostgreSQL function lets issues without a scan through before the query; the
      SQLite trigger has the same test in its condition. */
  predicate IssuePasses(d: Dialect, db: Db, new_: Issue)
  {
    match d
    case Postgres => new_.scan.None? || FindsChecking(db, new_.scan)
    case Sqlite => Both(Not(IsNull(new_.scan)), Of(!FindsChecking(db, new_.scan))) != True
  }

  // ---------------------------------------------------------------- admission

  predicate IsStatus(s: string) { s == "checking" || s == "completed" || s == "failed" }

  /** NOT NULL columns and the status check. */
  predicate ScanDeclared(row: Scan)
  {
    row.id.Some? && row.owner.Some? && row.sourceIds.Some? && row.createdAt.Some? && row.status.Some?
        && IsStatus(row.status.value)
  }

  predicate Admits(d: Dialect, db: Db, op: Op)
  {
    match op
    case InsertScan(row) => InsertScanRaises(row) != True && ScanDeclared(row) && row.id.value !in db.scans
    case UpdateScan(key, row) => key in db.scans && UpdateScanRaises(db.scans[key], row) != True && ScanDeclared(row)
    case InsertSource(scan, source) =>
      FindsChecking(db, scan) && scan.Some? && source.Some? && (scan.value, source.value) !in db.sources
    case InsertIssue(row) => IssuePasses(d, db, row) && row.id.Some? && row.id.value !in db.issues
    case _ => false
  }

  function Perform(db: Db, op: Op): Db
  {
    match op
    case InsertScan(row) => if row.id.Some? then db.(scans := db.scans[row.id.value := row]) else db
    case UpdateScan(key, row) => db.(scans := db.scans[key := row])
    case InsertSource(scan, source) =>
      if scan.Some? && source.Some? then db.(sources := db.sources + {(scan.value, source.value)}) else db
    case InsertIssue(row) => if row.id.Some? then db.(issues := db.issues[row.id.value := row]) else db
    case _ => db
  }

  class Database {
    const dialect: Dialect
    var db: Db

    constructor (d: Dialect)
      ensures dialect == d && db == Db(map[], {}, map[])
    {
      dialect, db := d, Db(map[], {}, map[]);
    }

    /** One row of a statement: the BEFORE triggers, the declared constraints, the write. */
    method Execute(op: Op) returns (ok: bool)
      modifies this`db
      ensures ok <==> Admits(dialect, old(db), op)
      ensures db == if ok then Perform(old(db), op) else old(db)
    {
      match op {
        case InsertScan(row) =>
          if InsertScanRaises(row) == True { return false; }
          if !ScanDeclared(row) || row.id.value in db.scans { return false; }
          db := db.(scans := db.scans[row.id.value := row]);
          return true;
        case UpdateScan(key, row) =>
          if key !in db.scans || UpdateScanRaises(db.scans[key], row) == True { return false; }
          if !ScanDeclared(row) { return false; }
          db := db.(scans := db.scans[key := row]);
          return true;
        case InsertSource(scan, source) =>
          if !FindsChecking(db, scan) { return false; }
          if scan.None? || source.None? || (scan.value, source.value) in db.sources { return false; }
          db := db.(sources := db.sources + {(scan.value, source.value)});
          return true;
        case InsertIssue(row) =>
          if !IssuePasses(dialect, db, row) { return false; }
          if row.id.None? || row.id.value in db.issues { return false; }
          db := db.(issues := db.issues[row.id.value := row]);
          return true;
        case _ => return false;
      }
    }
  }

  // ---------------------------------------------------------------- stored rows

  predicate Checking(row: Scan) { row.status == Some("checking") }

  /** A stored scan has been decided only together with its time. */
  predicate ScanStored(key: string, row: Scan)
  {
    row.id == Some(key) && ScanDeclared(row) && (!Checking(row) ==> row.checkedAt.Some?)
  }

  predicate Stored(db: Db)
  {
    (forall k :: k in db.scans ==> ScanStored(k, db.scans[k]))
        && (forall k :: k in db.issues ==> db.issues[k].id == Some(k))
  }

  lemma FindsExactlyChecking(db: Db, scanId: Text)
    requires Stored(db)
    ensures FindsChecking(db, scanId) <==> scanId.Some? && scanId.value in db.scans && Checking(db.scans[scanId.value])
  {
    if scanId.Some? && scanId.value in db.scans && Checking(db.scans[scanId.value]) {
      assert ScanStored(scanId.value, db.scans[scanId.value]);
      assert Both(Eq(db.scans[scanId.value].id, scanId), Eq(db.scans[scanId.value].status, Some("checking"))) == True;
    }
  }

  /** A scan still checking may be updated freely but for its identity, and decided only
      with a time; a decided one not at all. */
  lemma UpdateAdmittedExactlyWhen(key: string, old_: Scan, new_: Scan)
    requires ScanStored(key, old_)
    ensures (UpdateScanRaises(old_, new_) != True && ScanDeclared(new_)) <==>
            && Checking(old_) && new_.status.Some? && IsStatus(new_.status.value)
            && new_ == old_.(status := new_.status, checkedAt := new_.checkedAt, results := new_.results)
            && (Checking(new_) || new_.checkedAt.Some?)
  {
  }

  lemma InsertAdmittedExactlyWhen(new_: Scan)
    ensures (InsertScanRaises(new_) != True && ScanDeclared(new_)) <==>
            ScanDeclared(new_) && Checking(new_) && new_.checkedAt.None?
  {
  }

  /** A scan is admitted exactly when it is complete, checking, without a time and new, and
      changed exactly as the conditions above allow; and the statement does just that. */
  lemma ScanAdmittedExactlyWhen(d: Dialect, db: Db, row: Scan, key: string)
    requires Stored(db)
    ensures Admits(d, db, InsertScan(row)) <==>
            ScanDeclared(row) && Checking(row) && row.checkedAt.None? && row.id.value !in db.scans
    ensures Admits(d, db, UpdateScan(key, row)) <==>
            && key in db.scans && Checking(db.scans[key]) && row.status.Some? && IsStatus(row.status.value)
            && row == db.scans[key].(status := row.status, checkedAt := row.checkedAt, results := row.results)
            && (Checking(row) || row.checkedAt.Some?)
    ensures Admits(d, db, InsertScan(row)) ==>
              Perform(db, InsertScan(row)) == Db(db.scans[row.id.value := row], db.sources, db.issues)
    ensures Admits(d, db, UpdateScan(key, row)) ==>
              Perform(db, UpdateScan(key, row)) == Db(db.scans[key := row], db.sources, db.issues)
  {
    hide UpdateScanRaises, InsertScanRaises;
    InsertAdmittedExactlyWhen(row);
    if key in db.scans { UpdateAdmittedExactlyWhen(key, db.scans[key], row); }
  }

  /** A source is admitted exactly for a checking scan that does not have it yet, an issue
      exactly for a checking scan or none; and an admitted row is there afterwards, beside
      all that was there before. */
  lemma RowAdmittedExactlyWhen(d: Dialect, db: Db, scanId: Text, sourceId: Text, issue: Issue)
    requires Stored(db)
    ensures Admits(d, db, InsertSource(scanId, sourceId)) <==>
            && scanId.Some? && scanId.value in db.scans && db.scans[scanId.value].status == Some("checking")
            && sourceId.Some? && (scanId.value, sourceId.value) !in db.sources
    ensures Admits(d, db, InsertIssue(issue)) <==>
            && issue.id.Some? && issue.id.value !in db.issues
            && (issue.scan.Some? ==>
                  issue.scan.value in db.scans && db.scans[issue.scan.value].status == Some("checking"))
    ensures Admits(d, db, InsertSource(scanId, sourceId)) ==>
              Perform(db, InsertSource(scanId, sourceId))
              == Db(db.scans, db.sources + {(scanId.value, sourceId.value)}, db.issues)
    ensures Admits(d, db, InsertIssue(issue)) ==>
              Perform(db, InsertIssue(issue)) == Db(db.scans, db.sources, db.issues[issue.id.value := issue])
  {
    hide FindsChecking;
    FindsExactlyChecking(db, scanId);
    FindsExactlyChecking(db, issue.scan);
  }

  /** Both dialects admit the same row operations. */
  lemma DialectsAgree(db: Db, op: Op)
    ensures Admits(Postgres, db, op) <==> Admits(Sqlite, db, op)
  {
    hide FindsChecking, InsertScanRaises, UpdateScanRaises;
  }

  // ---------------------------------------------------------------- every admitted step

  lemma StepKeepsStored(d: Dialect, db: Db, op: Op)
    requires Stored(db) && Admits(d, db, op)
    ensures Stored(Perform(db, op))
  {
    hide FindsChecking, UpdateScanRaises, InsertScanRaises;
    if op.InsertScan? { InsertAdmittedExactlyWhen(op.scan); }
    if op.UpdateScan? { UpdateAdmittedExactlyWhen(op.key, db.scans[op.key], op.scan); }
  }

  function SourcesOf(db: Db, key: string): set<(string, string)> { set p | p in db.sources && p.0 == key }

  function IssuesOf(db: Db, key: string): map<string, Issue>
  {
    map k | k in db.issues && db.issues[k].scan == Some(key) :: db.issues[k]
  }

  predicate Decided(db: Db, key: string) { key in db.scans && !Checking(db.scans[key]) }

  lemma StepKeepsDecided(d: Dialect, db: Db, op: Op, key: string)
    requires Stored(db) && Admits(d, db, op) && Decided(db, key)
    ensures Decided(Perform(db, op), key) && Perform(db, op).scans[key] == db.scans[key]
    ensures SourcesOf(Perform(db, op), key) == SourcesOf(db, key)
    ensures IssuesOf(Perform(db, op), key) == IssuesOf(db, key)
  {
    hide FindsChecking, UpdateScanRaises, InsertScanRaises;
    match op {
      case UpdateScan(k, row) => UpdateAdmittedExactlyWhen(k, db.scans[k], row);
      case InsertSource(scan, _) => FindsExactlyChecking(db, scan);
      case InsertIssue(row) => FindsExactlyChecking(db, row.scan);
      case _ =>
    }
  }

  // ---------------------------------------------------------------- every sequence of steps

  ghost predicate Next(d: Dialect, db: Db, db': Db) { exists op :: Admits(d, db, op) && db' == Perform(db, op) }

  ghost predicate IsRun(d: Dialect, dbs: seq<Db>)
  {
    |dbs| > 0 && Stored(dbs[0]) && forall i :: 0 <= i < |dbs| - 1 ==> Next(d, dbs[i], dbs[i + 1])
  }

  lemma {:induction false} RunStored(d: Dialect, dbs: seq<Db>, n: nat)
    requires IsRun(d, dbs) && n < |dbs|
    ensures Stored(dbs[n])
  {
    hide Admits, Perform, Stored;
    if n > 0 {
      RunStored(d, dbs, n - 1);
      assert Next(d, dbs[n - 1], dbs[n - 1 + 1]);
      var op :| Admits(d, dbs[n - 1], op) && dbs[n] == Perform(dbs[n - 1], op);
      StepKeepsStored(d, dbs[n - 1], op);
    }
  }

  /** Once a scan is completed or failed, every later sequence of admitted operations
      leaves its row, its sources and its issues as they were, with the time it was
      checked. */
  lemma {:induction false} DecidedScanIsFrozen(d: Dialect, dbs: seq<Db>, i: nat, n: nat, key: string)
    requires IsRun(d, dbs) && i <= n < |dbs| && Decided(dbs[i], key)
    ensures Decided(dbs[n], key) && dbs[n].scans[key] == dbs[i].scans[key] && dbs[n].scans[key].checkedAt.Some?
    ensures SourcesOf(dbs[n], key) == SourcesOf(dbs[i], key) && IssuesOf(dbs[n], key) == IssuesOf(dbs[i], key)
  {
    hide Admits, Perform, ScanDeclared, SourcesOf, IssuesOf;
    RunStored(d, dbs, n);
    if i < n {
      DecidedScanIsFrozen(d, dbs, i, n - 1, key);
      RunStored(d, dbs, n - 1);
      assert Next(d, dbs[n - 1], dbs[n - 1 + 1]);
      var op :| Admits(d, dbs[n - 1], op) && dbs[n] == Perform(dbs[n - 1], op);
      StepKeepsDecided(d, dbs[n - 1], op, key);
    }
  }

  predicate SameIdentity(a: Scan, b: Scan)
  {
    b == a.(status := b.status, checkedAt := b.checkedAt, results := b.results)
  }

  /** No source or issue is ever changed or removed, whatever its scan; a scan keeps its
      identity columns. */
  lemma {:induction false} RowsOnlyGrow(d: Dialect, dbs: seq<Db>, i: nat, n: nat, key: string)
    requires IsRun(d, dbs) && i <= n < |dbs|
    ensures dbs[i].sources <= dbs[n].sources
    ensures forall k :: k in dbs[i].issues ==> k in dbs[n].issues && dbs[n].issues[k] == dbs[i].issues[k]
    ensures key in dbs[i].scans ==> key in dbs[n].scans && SameIdentity(dbs[i].scans[key], dbs[n].scans[key])
  {
    hide Admits, Perform, ScanDeclared;
    if i < n {
      RowsOnlyGrow(d, dbs, i, n - 1, key);
      RunStored(d, dbs, n - 1);
      assert Next(d, dbs[n - 1], dbs[n - 1 + 1]);
      var op :| Admits(d, dbs[n - 1], op) && dbs[n] == Perform(dbs[n - 1], op);
      StepKeepsRows(d, dbs[n - 1], op, key);
    }
  }

  lemma StepKeepsRows(d: Dialect, db: Db, op: Op, key: string)
    requires Stored(db) && Admits(d, db, op)
    ensures db.sources <= Perform(db, op).sources
    ensures forall k :: k in db.issues ==> k in Perform(db, op).issues && Perform(db, op).issues[k] == db.issues[k]
    ensures key in db.scans ==> key in Perform(db, op).scans && SameIdentity(db.scans[key], Perform(db, op).scans[key])
  {
    hide FindsChecking, UpdateScanRaises, InsertScanRaises;
    if op.UpdateScan? { UpdateAdmittedExactlyWhen(op.key, db.scans[op.key], op.scan); }
  }
}
