/** The seal of worksheet rule sets: the row triggers that migration 019 emits for the rule
    set table and the four tables of its tree, in both dialects. */
module WorksheetGuards {
  import opened Texts
  import opened Sql

  // ---------------------------------------------------------------- rows and tables

  /** `sc_source_worksheet_rule_sets`; every column is nullable in a statement. */
  datatype RuleSet = RuleSet(id: Text, revision: Text, mode: Text, policy: Text, sealed: Option<int>,
                             createdAt: Option<int>)

  /** A row of one of the four tables below a rule set; `rest` are the columns no trigger
      looks at. */
  datatype Child = Child(id: Text, parent: Text, rest: seq<Text>)

  datatype Level = Rules | Fields | Channels | ChannelFields

  /** A row of a child table, by table and primary key. */
  datatype Ref = Ref(level: Level, id: string)

  datatype Db = Db(sets: map<string, RuleSet>, children: map<Ref, Child>)

  /** One row of an INSERT, UPDATE or DELETE. */
  datatype Op =
    | InsertSet(set_: RuleSet) | UpdateSet(key: string, set_: RuleSet) | DeleteSet(key: string)
    | InsertChild(level: Level, child: Child) | UpdateChild(level: Level, key: string, child: Child)
    | DeleteChild(level: Level, key: string)

  // ---------------------------------------------------------------- the triggers

  /** The open-insert trigger fires. */
  function InsertSetRaises(d: Dialect, new_: RuleSet): Truth
  {
    match d
    case Postgres => Flag(new_.sealed)
    case Sqlite => Ne(new_.sealed, Some(0))
  }

  /** The seal-update trigger fires. */
  function UpdateSetRaises(d: Dialect, old_: RuleSet, new_: RuleSet): Truth
  {
    match d
    case Postgres =>
      Either(Flag(old_.sealed), Either(Not(Flag(new_.sealed)), Either(Differs(new_.id, old_.id),
        Either(Differs(new_.revision, old_.revision), Either(Differs(new_.mode, old_.mode),
          Either(Differs(new_.policy, old_.policy), Differs(new_.createdAt, old_.createdAt)))))))
    case Sqlite =>
      Not(Both(Eq(old_.sealed, Some(0)), Both(Eq(new_.sealed, Some(1)), Both(Not(Differs(new_.id, old_.id)),
        Both(Not(Differs(new_.revision, old_.revision)), Both(Not(Differs(new_.mode, old_.mode)),
          Both(Not(Differs(new_.policy, old_.policy)), Not(Differs(new_.createdAt, old_.createdAt)))))))))
  }

  /** `NOT rs.sealed` and `rs.sealed = 0`. */
  function OpenFlag(d: Dialect, rs: RuleSet): Truth
  {
    match d case Postgres => Not(Flag(rs.sealed)) case Sqlite => Eq(rs.sealed, Some(0))
  }

  /** Whether the guard query of a child insert finds a row: the join from the new row up
      to an open rule set. */
  predicate Finds(d: Dialect, db: Db, level: Level, new_: Child)
  {
    match level
    case Rules =>
      exists s :: s in db.sets && Both(Eq(db.sets[s].id, new_.parent), OpenFlag(d, db.sets[s])) == True
    case ChannelFields =>
      exists c, r, s :: c in db.children && c.level.Channels? && r in db.children && r.level.Rules? && s in db.sets
        && Eq(db.children[r].id, db.children[c].parent) == True && Eq(db.sets[s].id, db.children[r].parent) == True
        && Both(Eq(db.children[c].id, new_.parent), OpenFlag(d, db.sets[s])) == True
    case _ =>
      exists r, s :: r in db.children && r.level.Rules? && s in db.sets
             && Eq(db.sets[s].id, db.children[r].parent) == True
        && Both(Eq(db.children[r].id, new_.parent), OpenFlag(d, db.sets[s])) == True
  }

  // ---------------------------------------------------------------- admission

  /** The declared NOT NULL columns; the PostgreSQL column is a boolean. */
  predicate SetDeclared(d: Dialect, row: RuleSet)
  {
    && row.id.Some? && row.revision.Some? && row.mode.Some? && row.policy.Some? && row.sealed.Some?
       && row.createdAt.Some?
    && (d.Postgres? ==> row.sealed.value == 0 || row.sealed.value == 1)
  }

  /** The row operation passes the triggers, the primary key and the NOT NULL columns. */
  predicate Admits(d: Dialect, db: Db, op: Op)
  {
    match op
    case InsertSet(row) => InsertSetRaises(d, row) != True && SetDeclared(d, row) && row.id.value !in db.sets
    case UpdateSet(key, row) => key in db.sets && UpdateSetRaises(d, db.sets[key], row) != True && SetDeclared(d, row)
    case DeleteSet(key) => false
    case InsertChild(level, row) =>
      Finds(d, db, level, row) && row.id.Some? && row.parent.Some? && Ref(level, row.id.value) !in db.children
    case UpdateChild(_, _, _) => false
    case DeleteChild(_, _) => false
  }

  function Perform(db: Db, op: Op): Db
  {
    match op
    case InsertSet(row) => if row.id.Some? then db.(sets := db.sets[row.id.value := row]) else db
    case UpdateSet(key, row) => db.(sets := db.sets[key := row])
    case InsertChild(level, row) =>
      if row.id.Some? then db.(children := db.children[Ref(level, row.id.value) := row]) else db
    case _ => db
  }

  // ---------------------------------------------------------------- the tables as they change

  /** The database as statements see it; a refused row operation aborts and leaves the
      tables as they were. */
  class Database {
    const dialect: Dialect
    var db: Db

    constructor (d: Dialect)
      ensures dialect == d && db == Db(map[], map[])
    {
      dialect, db := d, Db(map[], map[]);
    }

    /** One row of a statement: the BEFORE triggers, then the declared constraints, then
        the write. */
    method Execute(op: Op) returns (ok: bool)
      modifies this`db
      ensures ok <==> Admits(dialect, old(db), op)
      ensures db == if ok then Perform(old(db), op) else old(db)
    {
      match op {
        case InsertSet(row) =>
          if InsertSetRaises(dialect, row) == True { return false; }
          if !SetDeclared(dialect, row) || row.id.value in db.sets { return false; }
          db := db.(sets := db.sets[row.id.value := row]);
          return true;
        case UpdateSet(key, row) =>
          if key !in db.sets || UpdateSetRaises(dialect, db.sets[key], row) == True { return false; }
          if !SetDeclared(dialect, row) { return false; }
          db := db.(sets := db.sets[key := row]);
          return true;
        case InsertChild(level, row) =>
          if !Finds(dialect, db, level, row) { return false; }
          if row.id.None? || row.parent.None? || Ref(level, row.id.value) in db.children { return false; }
          db := db.(children := db.children[Ref(level, row.id.value) := row]);
          return true;
        case DeleteSet(_) => return false;
        case UpdateChild(_, _, _) => return false;
        case DeleteChild(_, _) => return false;
      }
    }
  }

  // ---------------------------------------------------------------- stored rows

  predicate SetStored(key: string, row: RuleSet)
  {
    row.id == Some(key) && SetDeclared(Postgres, row)
  }

  /** What the constraints and triggers make of every stored row, in both dialects; rows
      may still have dangling parents. */
  predicate Stored(db: Db)
  {
    && (forall s :: s in db.sets ==> SetStored(s, db.sets[s]))
    && (forall k :: k in db.children ==> db.children[k].id == Some(k.id))
  }

  predicate Sealed(row: RuleSet) { row.sealed == Some(1) }

  /** The rule set a parent reference leads to, if the chain is complete. */
  function RootOf(db: Db, level: Level, parent: Text): Text
  {
    if parent.None? then None
    else
      match level
      case Rules => if parent.value in db.sets then parent else None
      case ChannelFields =>
        if Ref(Channels, parent.value) in db.children
        then RootOfRule(db, db.children[Ref(Channels, parent.value)].parent) else None
      case _ => RootOfRule(db, parent)
  }

  function RootOfRule(db: Db, rule: Text): Text
  {
    if rule.Some? && Ref(Rules, rule.value) in db.children then
      var set_ := db.children[Ref(Rules, rule.value)].parent;
      if set_.Some? && set_.value in db.sets then set_ else None
    else None
  }

  /** The guard queries find a row exactly when the chain leads to an open rule set. */
  lemma FindsOpenRoot(d: Dialect, db: Db, level: Level, new_: Child)
    requires Stored(db)
    ensures Finds(d, db, level, new_) <==>
            var root := RootOf(db, level, new_.parent);
            root.Some? && root.value in db.sets && !Sealed(db.sets[root.value])
  {
    var root := RootOf(db, level, new_.parent);
    if root.Some? && !Sealed(db.sets[root.value]) {
      var rs := db.sets[root.value];
      assert SetStored(root.value, rs) && OpenFlag(d, rs) == True;
      match level {
        case Rules =>
          assert Both(Eq(db.sets[root.value].id, new_.parent), OpenFlag(d, db.sets[root.value])) == True;
        case ChannelFields =>
          var c := Ref(Channels, new_.parent.value);
          var r := Ref(Rules, db.children[c].parent.value);
          assert Both(Eq(db.children[c].id, new_.parent), OpenFlag(d, rs)) == True
                 && Eq(db.children[r].id, db.children[c].parent) == True;
        case _ =>
          var r := Ref(Rules, new_.parent.value);
          assert Both(Eq(db.children[r].id, new_.parent), OpenFlag(d, rs)) == True
                 && Eq(db.sets[root.value].id, db.children[r].parent) == True;
      }
    }
  }

  // ---------------------------------------------------------------- the dialects

  /** What both update triggers come to on a stored row: an open set may be sealed, with
      nothing else changed. */
  lemma UpdateAdmittedExactlyWhen(d: Dialect, key: string, old_: RuleSet, new_: RuleSet)
    requires SetStored(key, old_)
    ensures (UpdateSetRaises(d, old_, new_) != True && SetDeclared(d, new_)) <==>
              (!Sealed(old_) && new_ == old_.(sealed := Some(1)))
  {
  }

  lemma InsertAdmittedExactlyWhen(d: Dialect, new_: RuleSet)
    ensures (InsertSetRaises(d, new_) != True && SetDeclared(d, new_)) <==>
              (SetDeclared(Postgres, new_) && new_.sealed == Some(0))
  {
  }

  /** The PostgreSQL and SQLite triggers admit the same row operations, nulls and
      integers that are no booleans included. */
  lemma DialectsAgree(db: Db, op: Op)
    requires Stored(db)
    ensures Admits(Postgres, db, op) <==> Admits(Sqlite, db, op)
  {
    hide Finds, SetDeclared, InsertSetRaises, UpdateSetRaises, RootOf;
    match op {
      case InsertSet(row) =>
        InsertAdmittedExactlyWhen(Postgres, row);
        InsertAdmittedExactlyWhen(Sqlite, row);
      case UpdateSet(key, row) =>
        if key in db.sets {
          UpdateAdmittedExactlyWhen(Postgres, key, db.sets[key], row);
          UpdateAdmittedExactlyWhen(Sqlite, key, db.sets[key], row);
        }
      case InsertChild(level, row) =>
        FindsOpenRoot(Postgres, db, level, row);
        FindsOpenRoot(Sqlite, db, level, row);
      case _ =>
    }
  }

  predicate OpenSet(db: Db, set_: Text) { set_.Some? && set_.value in db.sets && db.sets[set_.value].sealed == Some(0) }

  predicate RuleOfOpenSet(db: Db, rule: Text)
  {
    rule.Some? && Ref(Rules, rule.value) in db.children && OpenSet(db, db.children[Ref(Rules, rule.value)].parent)
  }

  predicate ChannelOfOpenSet(db: Db, channel: Text)
  {
    channel.Some? && Ref(Channels, channel.value) in db.children
    && RuleOfOpenSet(db, db.children[Ref(Channels, channel.value)].parent)
  }

  /** On each of the four levels, in both dialects: a row is admitted if and only if it has
      an id that is not taken and a parent through which it leads, step by step, to an open
      rule set; and then it is there, beside all that was there before. */
  lemma ChildAdmittedExactlyWhen(d: Dialect, db: Db, level: Level, row: Child)
    requires Stored(db)
    ensures Admits(d, db, InsertChild(level, row)) <==>
            && row.id.Some? && Ref(level, row.id.value) !in db.children
            && match level
               case Rules => OpenSet(db, row.parent)
               case Fields => RuleOfOpenSet(db, row.parent)
               case Channels => RuleOfOpenSet(db, row.parent)
               case ChannelFields => ChannelOfOpenSet(db, row.parent)
    ensures Admits(d, db, InsertChild(level, row)) ==>
              Perform(db, InsertChild(level, row)) == Db(db.sets, db.children[Ref(level, row.id.value) := row])
  {
    hide Finds;
    FindsOpenRoot(d, db, level, row);
    assert forall s :: s in db.sets ==> SetStored(s, db.sets[s]);
  }

  /** A rule set is admitted exactly when it is complete, open and new, and sealed exactly
      when it is there and open; and the statement does just that. */
  lemma SetAdmittedExactlyWhen(d: Dialect, db: Db, row: RuleSet, key: string)
    requires Stored(db)
    ensures Admits(d, db, InsertSet(row)) <==>
            SetDeclared(Postgres, row) && row.sealed == Some(0) && row.id.value !in db.sets
    ensures Admits(d, db, UpdateSet(key, row)) <==>
            key in db.sets && db.sets[key].sealed == Some(0) && row == db.sets[key].(sealed := Some(1))
    ensures Admits(d, db, InsertSet(row)) ==>
              Perform(db, InsertSet(row)) == Db(db.sets[row.id.value := row], db.children)
    ensures Admits(d, db, UpdateSet(key, row)) ==>
              Perform(db, UpdateSet(key, row)) == Db(db.sets[key := row], db.children)
  {
    InsertAdmittedExactlyWhen(d, row);
    if key in db.sets { UpdateAdmittedExactlyWhen(d, key, db.sets[key], row); }
  }

  // ---------------------------------------------------------------- every admitted step

  lemma StepKeepsStored(d: Dialect, db: Db, op: Op)
    requires Stored(db) && Admits(d, db, op)
    ensures Stored(Perform(db, op))
  {
    hide Finds;
    match op {
      case InsertSet(row) => InsertAdmittedExactlyWhen(d, row);
      case UpdateSet(key, row) => UpdateAdmittedExactlyWhen(d, key, db.sets[key], row);
      case _ =>
    }
  }

  predicate AtMostSealed(old_: RuleSet, new_: RuleSet)
  {
    new_ == old_ || (!Sealed(old_) && new_ == old_.(sealed := Some(1)))
  }

  /** Rows stay, and a rule set changes at most by being sealed. */
  lemma StepKeepsRows(d: Dialect, db: Db, op: Op, s: string)
    requires Stored(db) && Admits(d, db, op)
    ensures s in db.sets ==> s in Perform(db, op).sets && AtMostSealed(db.sets[s], Perform(db, op).sets[s])
    ensures forall k :: k in db.children ==>
              k in Perform(db, op).children && Perform(db, op).children[k] == db.children[k]
  {
    hide Finds, UpdateSetRaises, InsertSetRaises;
    if op.UpdateSet? { UpdateAdmittedExactlyWhen(d, op.key, db.sets[op.key], op.set_); }
  }

  /** The rows of all four tables in the tree of a rule set. */
  function TreeOf(db: Db, s: string): map<Ref, Child>
  {
    map k | k in db.children && RootOf(db, k.level, db.children[k].parent) == Some(s) :: db.children[k]
  }

  /** An admitted step never leads a new chain to a sealed set: not directly, and not
      through an intermediate row that it inserts. */
  lemma StepKeepsRoots(d: Dialect, db: Db, op: Op, s: string, level: Level, parent: Text)
    requires Stored(db) && Admits(d, db, op) && s in db.sets && Sealed(db.sets[s])
    ensures RootOf(Perform(db, op), level, parent) == Some(s) <==> RootOf(db, level, parent) == Some(s)
  {
    hide Finds;
    if op.InsertChild? { FindsOpenRoot(d, db, op.level, op.child); }
  }

  lemma StepKeepsTree(d: Dialect, db: Db, op: Op, s: string)
    requires Stored(db) && Admits(d, db, op) && s in db.sets && Sealed(db.sets[s])
    ensures TreeOf(Perform(db, op), s) == TreeOf(db, s)
  {
    hide Finds, RootOf, UpdateSetRaises, InsertSetRaises;
    var db' := Perform(db, op);
    StepKeepsRows(d, db, op, s);
    if op.InsertChild? { FindsOpenRoot(d, db, op.level, op.child); }
    forall k | k in db'.children
      ensures RootOf(db', k.level, db'.children[k].parent) == Some(s) <==>
              k in db.children && RootOf(db, k.level, db.children[k].parent) == Some(s)
    {
      StepKeepsRoots(d, db, op, s, k.level, db'.children[k].parent);
    }
  }

  // ---------------------------------------------------------------- every sequence of steps

  ghost predicate Next(d: Dialect, db: Db, db': Db) { exists op :: Admits(d, db, op) && db' == Perform(db, op) }

  ghost predicate IsRun(d: Dialect, dbs: seq<Db>)
  {
    |dbs| > 0 && Stored(dbs[0]) && forall i :: 0 <= i < |dbs| - 1 ==> Next(d, dbs[i], dbs[i + 1])
  }

  lemma {:induction false} RunStored(d: Dialect, dbs: seq<Db>, n: nat)
    requires IsRun(d, dbs) && n < |dbs|
    ensures Stored(dbs[n])
  {
    hide Admits, Perform, Stored;
    if n > 0 {
      RunStored(d, dbs, n - 1);
      assert Next(d, dbs[n - 1], dbs[n - 1 + 1]);
      var op :| Admits(d, dbs[n - 1], op) && dbs[n] == Perform(dbs[n - 1], op);
      StepKeepsStored(d, dbs[n - 1], op);
    }
  }

  /** Once a rule set is sealed, every later sequence of admitted operations, in either
      dialect, leaves its row and its whole tree of rules, fields, channels and channel
      fields as they were: nothing changed, removed or added. */
  lemma {:induction false} SealedTreeIsFrozen(d: Dialect, dbs: seq<Db>, i: nat, n: nat, s: string)
    requires IsRun(d, dbs) && i <= n < |dbs| && s in dbs[i].sets && Sealed(dbs[i].sets[s])
    ensures s in dbs[n].sets && dbs[n].sets[s] == dbs[i].sets[s]
    ensures TreeOf(dbs[n], s) == TreeOf(dbs[i], s)
  {
    hide Admits, Perform, Stored, TreeOf;
    if i < n {
      SealedTreeIsFrozen(d, dbs, i, n - 1, s);
      RunStored(d, dbs, n - 1);
      assert Next(d, dbs[n - 1], dbs[n - 1 + 1]);
      var op :| Admits(d, dbs[n - 1], op) && dbs[n] == Perform(dbs[n - 1], op);
      StepKeepsRows(d, dbs[n - 1], op, s);
      StepKeepsTree(d, dbs[n - 1], op, s);
    }
  }

  /** No row is ever lost, and the one change a rule set can go through is the seal. */
  lemma {:induction false} RowsOnlyGrow(d: Dialect, dbs: seq<Db>, i: nat, n: nat, s: string)
    requires IsRun(d, dbs) && i <= n < |dbs|
    ensures s in dbs[i].sets ==> s in dbs[n].sets && AtMostSealed(dbs[i].sets[s], dbs[n].sets[s])
    ensures forall k :: k in dbs[i].children ==> k in dbs[n].children && dbs[n].children[k] == dbs[i].children[k]
  {
    hide Admits, Perform, Stored;
    if i < n {
      RowsOnlyGrow(d, dbs, i, n - 1, s);
      RunStored(d, dbs, n - 1);
      assert Next(d, dbs[n - 1], dbs[n - 1 + 1]);
      var op :| Admits(d, dbs[n - 1], op) && dbs[n] == Perform(dbs[n - 1], op);
      StepKeepsRows(d, dbs[n - 1], op, s);
    }
  }
}
