/** SQLite's `INSERT OR REPLACE` on the tables of sealed rule sets: the insert triggers see
    it, the delete triggers do not. */
module WorksheetReplace {
  import opened Texts
  import opened Sql
  import opened WorksheetGuards

  // ---------------------------------------------------------------- what is replaced

  /** The unique key below the parent: worksheet name, field or channel, the first of the
      columns no trigger looks at. */
  predicate SameKey(a: Child, b: Child)
  {
    a.parent.Some? && a.parent == b.parent && a.rest != [] && b.rest != [] && a.rest[0].Some? && a.rest[0] == b.rest[0]
  }

  /** The rows that give way to the new one, by primary or unique key. */
  function VictimSets(db: Db, row: RuleSet): set<string>
  {
    set s | s in db.sets && (row.id == Some(s) || (row.revision.Some? && db.sets[s].revision == row.revision))
  }

  function Victims(db: Db, level: Level, row: Child): set<Ref>
  {
    set k | k in db.children && k.level == level && (row.id == Some(k.id) || SameKey(row, db.children[k]))
  }

  /** Rows of the table at `below` refer to rows of the table at `level`. */
  predicate RefersTo(below: Level, level: Level)
  {
    match level
    case Rules => below.Fields? || below.Channels?
    case Channels => below.ChannelFields?
    case _ => false
  }

  predicate SetReferenced(db: Db, s: string)
  {
    exists k :: k in db.children && k.level.Rules? && db.children[k].parent == Some(s)
  }

  predicate Referenced(db: Db, r: Ref)
  {
    exists k :: k in db.children && RefersTo(k.level, r.level) && db.children[k].parent == Some(r.id)
  }

  /** The replace goes through: the insert trigger passes, no column is missing, and no
      foreign key restricts the removal of a victim. */
  predicate AdmitsReplace(db: Db, op: Op)
  {
    match op
    case InsertSet(row) =>
      InsertSetRaises(Sqlite, row) != True && SetDeclared(Sqlite, row)
      && forall s :: s in VictimSets(db, row) ==> !SetReferenced(db, s)
    case InsertChild(level, row) =>
      Finds(Sqlite, db, level, row) && row.id.Some? && row.parent.Some?
      && forall k :: k in Victims(db, level, row) ==> !Referenced(db, k)
    case _ => false
  }

  function PerformReplace(db: Db, op: Op): Db
  {
    match op
    case InsertSet(row) => Perform(db.(sets := db.sets - VictimSets(db, row)), op)
    case InsertChild(level, row) => Perform(db.(children := db.children - Victims(db, level, row)), op)
    case _ => db
  }

  /** The new row has the key of the sealed set, or the id of a row in its tree. */
  predicate Hits(db: Db, op: Op, s: string)
    requires s in db.sets
  {
    match op
    case InsertSet(row) => row.id == Some(s) || row.revision == db.sets[s].revision
    case InsertChild(level, row) => row.id.Some? && Ref(level, row.id.value) in TreeOf(db, s)
    case _ => false
  }

  // ---------------------------------------------------------------- one replace

  lemma ReplaceKeepsStored(db: Db, op: Op)
    requires Stored(db) && AdmitsReplace(db, op)
    ensures Stored(PerformReplace(db, op))
  {
    hide Finds, Referenced, SetReferenced;
    if op.InsertSet? { InsertAdmittedExactlyWhen(Sqlite, op.set_); }
  }

  /** A chain that leads to a sealed set before or after a replace of a rule set leads there
      both times, if the set is not replaced. */
  lemma SetReplaceKeepsRoots(db: Db, op: Op, s: string, level: Level, parent: Text)
    requires Stored(db) && AdmitsReplace(db, op) && op.InsertSet? && s in db.sets && !Hits(db, op, s)
    ensures RootOf(PerformReplace(db, op), level, parent) == Some(s) <==> RootOf(db, level, parent) == Some(s)
  {
    hide Finds, Referenced, SetReferenced, SetDeclared, InsertSetRaises;
    assert SetStored(s, db.sets[s]);
  }

  /** The chain of the new row leads to an open set. */
  lemma NewRowIsOpen(db: Db, level: Level, row: Child, s: string)
    requires Stored(db) && Finds(Sqlite, db, level, row) && s in db.sets && Sealed(db.sets[s])
    ensures RootOf(db, level, row.parent) != Some(s)
  {
    hide Finds;
    FindsOpenRoot(Sqlite, db, level, row);
  }

  /** A rule that is not replaced leads to a sealed set before and after, or neither. */
  lemma RuleLeadsOn(db: Db, level: Level, row: Child, s: string, rule: Text)
    requires Stored(db) && AdmitsReplace(db, InsertChild(level, row)) && s in db.sets && Sealed(db.sets[s])
    requires rule.Some? ==> Ref(Rules, rule.value) !in Victims(db, level, row)
    ensures RootOfRule(PerformReplace(db, InsertChild(level, row)), rule) == Some(s) <==>
              RootOfRule(db, rule) == Some(s)
  {
    hide Finds, Referenced;
    NewRowIsOpen(db, level, row, s);
  }

  lemma RefersToNoVictim(db: Db, level: Level, row: Child, k: Ref, up: Level)
    requires AdmitsReplace(db, InsertChild(level, row)) && k in db.children && RefersTo(k.level, up)
    ensures var parent := db.children[k].parent; parent.Some? ==> Ref(up, parent.value) !in Victims(db, level, row)
  {
    hide Finds, Victims;
    var parent := db.children[k].parent;
    if parent.Some? { assert Referenced(db, Ref(up, parent.value)); }
  }

  /** The same for an old row of a child table: its chain passes through no victim, and if
      it passes through the new row it leads to no sealed set. */
  lemma OldRowLeadsOn(db: Db, level: Level, row: Child, s: string, k: Ref)
    requires Stored(db) && AdmitsReplace(db, InsertChild(level, row)) && s in db.sets && Sealed(db.sets[s])
    requires k in db.children
    ensures var parent := db.children[k].parent;
            RootOf(PerformReplace(db, InsertChild(level, row)), k.level, parent) == Some(s) <==>
            RootOf(db, k.level, parent) == Some(s)
  {
    hide Finds, Victims, Referenced, RootOfRule, AdmitsReplace;
    var parent := db.children[k].parent;
    match k.level {
      case Rules =>
      case ChannelFields =>
        RefersToNoVictim(db, level, row, k, Channels);
        if parent.Some? { ChannelLeadsOn(db, level, row, s, parent.value); }
      case _ =>
        RefersToNoVictim(db, level, row, k, Rules);
        RuleLeadsOn(db, level, row, s, parent);
    }
  }

  lemma ChannelLeadsOn(db: Db, level: Level, row: Child, s: string, channel: string)
    requires Stored(db) && AdmitsReplace(db, InsertChild(level, row)) && s in db.sets && Sealed(db.sets[s])
    requires Ref(Channels, channel) !in Victims(db, level, row)
    ensures RootOf(PerformReplace(db, InsertChild(level, row)), ChannelFields, Some(channel)) == Some(s) <==>
            RootOf(db, ChannelFields, Some(channel)) == Some(s)
  {
    hide Finds, Victims, Referenced, RootOfRule;
    var c := Ref(Channels, channel);
    NewRowIsOpen(db, level, row, s);
    if level.Channels? && row.id == Some(channel) {
      NewVictims(db, level, row);
      RuleStands(db, level, row, s, row.parent);
    } else if c in db.children {
      RefersToNoVictim(db, level, row, c, Rules);
      RuleLeadsOn(db, level, row, s, db.children[c].parent);
    }
  }

  /** A replace below a rule leaves the rules. */
  lemma RuleStands(db: Db, level: Level, row: Child, s: string, rule: Text)
    requires !level.Rules?
    ensures RootOfRule(PerformReplace(db, InsertChild(level, row)), rule) == RootOfRule(db, rule)
  {
  }

  lemma NewVictims(db: Db, level: Level, row: Child)
    requires row.id.Some? && Ref(level, row.id.value) !in Victims(db, level, row)
    ensures Ref(level, row.id.value) !in db.children
  {
  }

  /** A row that gives way to its unique key lies in the open tree of the new row. */
  lemma VictimInTree(db: Db, level: Level, row: Child, s: string, k: Ref)
    requires Stored(db) && AdmitsReplace(db, InsertChild(level, row)) && s in db.sets && Sealed(db.sets[s])
    ensures k in Victims(db, level, row) && k in TreeOf(db, s) <==>
            k == Ref(level, row.id.value) && k in TreeOf(db, s)
  {
    hide Finds, Referenced, RootOf;
    NewRowIsOpen(db, level, row, s);
  }

  lemma ChildReplaceOnTree(db: Db, level: Level, row: Child, s: string)
    requires Stored(db) && AdmitsReplace(db, InsertChild(level, row)) && s in db.sets && Sealed(db.sets[s])
    ensures TreeOf(PerformReplace(db, InsertChild(level, row)), s) == TreeOf(db, s) - {Ref(level, row.id.value)}
  {
    hide Finds, Victims, Referenced, RootOf;
    var op, new_ := InsertChild(level, row), Ref(level, row.id.value);
    var db' := PerformReplace(db, op);
    NewRowLeadsOn(db, level, row, s);
    forall k | k in db.children && k != new_
      ensures k in TreeOf(db', s) <==> k in TreeOf(db, s)
    {
      VictimInTree(db, level, row, s, k);
      OldRowLeadsOn(db, level, row, s, k);
    }
  }

  lemma NewRowLeadsOn(db: Db, level: Level, row: Child, s: string)
    requires Stored(db) && AdmitsReplace(db, InsertChild(level, row)) && s in db.sets && Sealed(db.sets[s])
    ensures var db', new_ := PerformReplace(db, InsertChild(level, row)), Ref(level, row.id.value);
            && new_ in db'.children && db'.children[new_] == row
            && RootOf(db', level, row.parent) != Some(s)
            && forall k :: k != new_ ==>
                 (k in db'.children <==> k in db.children && k !in Victims(db, level, row))
                 && (k in db'.children ==> db'.children[k] == db.children[k])
  {
    hide Finds, Referenced;
    NewRowIsOpen(db, level, row, s);
  }

  lemma SetReplaceOnTree(db: Db, row: RuleSet, s: string)
    requires Stored(db) && AdmitsReplace(db, InsertSet(row)) && s in db.sets && !Hits(db, InsertSet(row), s)
    ensures var db' := PerformReplace(db, InsertSet(row));
            s in db'.sets && db'.sets[s] == db.sets[s] && TreeOf(db', s) == TreeOf(db, s)
  {
    hide SetReferenced, RootOf, InsertSetRaises;
    forall k | k in db.children
      ensures RootOf(PerformReplace(db, InsertSet(row)), k.level, db.children[k].parent) == Some(s) <==>
              RootOf(db, k.level, db.children[k].parent) == Some(s)
    {
      SetReplaceKeepsRoots(db, InsertSet(row), s, k.level, db.children[k].parent);
    }
  }

  predicate Unharmed(db: Db, db': Db, s: string)
    requires s in db.sets
  {
    s in db'.sets && db'.sets[s] == db.sets[s] && TreeOf(db', s) == TreeOf(db, s)
  }

  /** A replace that goes through leaves a sealed set and its tree as they were if and only
      if the new row has neither the id or revision of the set nor the id of a row in its
      tree; a clash of unique keys below a set never reaches a sealed tree. */
  lemma ReplaceHarmsExactlyWhen(db: Db, op: Op, s: string)
    requires Stored(db) && AdmitsReplace(db, op) && s in db.sets && Sealed(db.sets[s])
    ensures Unharmed(db, PerformReplace(db, op), s) <==> !Hits(db, op, s)
  {
    hide Finds, Referenced, SetReferenced, Victims, RootOf;
    match op {
      case InsertSet(row) =>
        InsertAdmittedExactlyWhen(Sqlite, row);
        assert SetStored(s, db.sets[s]);
        if !Hits(db, op, s) { SetReplaceOnTree(db, row, s); }
      case InsertChild(level, row) =>
        ChildReplaceOnTree(db, level, row, s);
        assert Ref(level, row.id.value) !in TreeOf(PerformReplace(db, op), s);
        if !Hits(db, op, s) { assert TreeOf(db, s) - {Ref(level, row.id.value)} == TreeOf(db, s); }
    }
  }

  /** No two rows share a unique key. */
  predicate KeysUnique(db: Db)
  {
    && (forall s, t :: s in db.sets && t in db.sets && s != t ==> db.sets[s].revision != db.sets[t].revision)
    && (forall k, l :: k in db.children && l in db.children && k.level == l.level && k != l ==>
          !SameKey(db.children[k], db.children[l]))
  }

  /** A replace removes exactly the rows that stand in the way of the new one: the keys are
      unique afterwards, every removed row shares its id or its unique key, and all other
      rows stay. */
  lemma ReplaceKeepsKeysUnique(db: Db, op: Op)
    requires Stored(db) && KeysUnique(db) && AdmitsReplace(db, op)
    ensures var db' := PerformReplace(db, op);
            && KeysUnique(db')
            && (op.InsertSet? ==> op.set_.id.value in db'.sets && db'.sets[op.set_.id.value] == op.set_)
            && (op.InsertChild? ==>
                  var r := Ref(op.level, op.child.id.value); r in db'.children && db'.children[r] == op.child)
            && (forall s :: s in db.sets && s !in db'.sets ==>
                  op.InsertSet? && db.sets[s].revision == op.set_.revision)
            && (forall s :: s in db.sets && s in db'.sets && db'.sets[s] != db.sets[s] ==>
                  op.InsertSet? && op.set_.id == Some(s))
            && (forall k :: k in db.children && k !in db'.children ==>
                  op.InsertChild? && k.level == op.level && SameKey(op.child, db.children[k]))
            && (forall k :: k in db.children && k in db'.children && db'.children[k] != db.children[k] ==>
                  op.InsertChild? && k == Ref(op.level, op.child.id.value))
  {
    hide Finds, Referenced, SetReferenced, InsertSetRaises;
  }

  // ---------------------------------------------------------------- runs with replaces

  /** An ordinary row operation, or a replace that does not hit the set. */
  ghost predicate Next(db: Db, db': Db, s: string)
  {
    exists op :: (Admits(Sqlite, db, op) && db' == Perform(db, op))
                 || (AdmitsReplace(db, op) && db' == PerformReplace(db, op) && s in db.sets && !Hits(db, op, s))
  }

  /** The freeze, with replaces among the operations: it holds for a set as long as none of
      them hits it. */
  lemma {:induction false} FrozenUnlessHit(dbs: seq<Db>, n: nat, s: string)
    requires n < |dbs| && Stored(dbs[0]) && s in dbs[0].sets && Sealed(dbs[0].sets[s])
    requires forall i :: 0 <= i < |dbs| - 1 ==> Next(dbs[i], dbs[i + 1], s)
    ensures Stored(dbs[n]) && Unharmed(dbs[0], dbs[n], s)
  {
    hide Admits, AdmitsReplace, Perform, PerformReplace, Stored, TreeOf, Hits;
    if n > 0 {
      FrozenUnlessHit(dbs, n - 1, s);
      var db, db' := dbs[n - 1], dbs[n];
      assert Next(db, dbs[n - 1 + 1], s);
      var op :| (Admits(Sqlite, db, op) && db' == Perform(db, op))
                || (AdmitsReplace(db, op) && db' == PerformReplace(db, op) && s in db.sets && !Hits(db, op, s));
      if Admits(Sqlite, db, op) && db' == Perform(db, op) {
        StepKeepsStored(Sqlite, db, op);
        StepKeepsRows(Sqlite, db, op, s);
        StepKeepsTree(Sqlite, db, op, s);
      } else {
        ReplaceKeepsStored(db, op);
        ReplaceHarmsExactlyWhen(db, op, s);
      }
    }
  }

  // ---------------------------------------------------------------- a field taken out of a sealed tree

  function SetRow(id: string, sealed: int): RuleSet
  {
    RuleSet(Some(id), Some("revision of " + id), Some("shared"), Some("block"), Some(sealed), Some(0))
  }

  /** Two sets with a rule each; the first is sealed, and its rule has a field. */
  function TwoSets(): Db
  {
    Db(map["a" := SetRow("a", 1), "b" := SetRow("b", 0)],
       map[Ref(Rules, "r") := Child(Some("r"), Some("a"), [Some("one")]),
           Ref(Rules, "q") := Child(Some("q"), Some("b"), [Some("one")]),
           Ref(Fields, "f") := Child(Some("f"), Some("r"), [Some("cost")])])
  }

  /** Replacing the field under its own id, for the rule of the open set. */
  lemma FieldLeavesSealedTree()
    ensures var db, op := TwoSets(), InsertChild(Fields, Child(Some("f"), Some("q"), [Some("cost")]));
            && Stored(db) && AdmitsReplace(db, op) && Sealed(db.sets["a"])
            && Ref(Fields, "f") in TreeOf(db, "a") && Ref(Fields, "f") !in TreeOf(PerformReplace(db, op), "a")
  {
    var db, row := TwoSets(), Child(Some("f"), Some("q"), [Some("cost")]);
    assert Stored(db);
    assert Both(Eq(db.children[Ref(Rules, "q")].id, row.parent), OpenFlag(Sqlite, db.sets["b"])) == True;
    ChildReplaceOnTree(db, Fields, row, "a");
  }
}
