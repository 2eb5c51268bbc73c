/**
 What the store's counters mean over whole runs: instance numbers are never reused, the
 lock generation counts grants, the content generation counts changes, and between two
 grants of one lock there is a reset.
 */
module History {
  import opened Text
  import opened Database
  import opened DirectoryTree

  /** The table before command i of a run. */
  function At(db: Db, cmds: seq<Cmd>, i: nat): Db
    requires i <= |cmds|
  {
    Run(db, cmds[..i])
  }

  function ReplyAt(db: Db, cmds: seq<Cmd>, i: nat): Reply
    requires i < |cmds|
  {
    Apply(At(db, cmds, i), cmds[i]).1
  }

  lemma AtStep(db: Db, cmds: seq<Cmd>, i: nat)
    requires i < |cmds|
    ensures At(db, cmds, i + 1) == Apply(At(db, cmds, i), cmds[i]).0
  {
    assert cmds[..i + 1] == cmds[..i] + [cmds[i]];
    RunAppend(db, cmds[..i], cmds[i]);
  }

  lemma AtSplit(db: Db, cmds: seq<Cmd>, i: nat, j: nat)
    requires i <= j <= |cmds|
    ensures At(db, cmds, j) == Run(At(db, cmds, i), cmds[i..j])
  {
    assert cmds[..j] == cmds[..i] + cmds[i..j];
    RunConcat(db, cmds[..i], cmds[i..j]);
  }

  // ---------------------------------------------------------------- instance numbers

  /** A number that was given out and does not name this node now. */
  predicate Retired(db: Db, file: string, inst: nat) {
    inst <= db.maxInst && !Live(db, file, inst)
  }

  lemma OthersKeepAges(db: Db, cmd: Cmd)
    requires cmd.Update? || cmd.Lock? || cmd.Unlock?
    ensures Ages(Apply(db, cmd).0) == Ages(db)
  {}

  lemma DeletedAges(db: Db, file: string)
    requires file in db.fs && ParentPresent(db, file)
    ensures Ages(Deleted(db, file)) == Ages(db) - {file}
  {}

  lemma StepNumbers(db: Db, cmd: Cmd)
    requires Numbered(db)
    ensures Numbered(Apply(db, cmd).0) && db.maxInst <= Apply(db, cmd).0.maxInst
  {
    match cmd
    case Create(f, isDir) => if CanCreate(db, f) { ChildrenAfterCreate(db, f, isDir, f); }
    case Delete(f, inst) => if CanDelete(db, f, inst) && ParentPresent(db, f) { DeletedAges(db, f); }
    case Update(_, _, _) => OthersKeepAges(db, cmd);
    case Lock(_, _, _) => OthersKeepAges(db, cmd);
    case Unlock(_, _) => OthersKeepAges(db, cmd);
    case _ =>
  }

  lemma StepRetired(db: Db, cmd: Cmd, file: string, inst: nat)
    requires Retired(db, file, inst)
    ensures Retired(Apply(db, cmd).0, file, inst)
  {}

  lemma {:induction false} RunNumbers(db: Db, cmds: seq<Cmd>)
    requires Numbered(db)
    ensures Numbered(Run(db, cmds)) && db.maxInst <= Run(db, cmds).maxInst
    decreases cmds
  {
    if cmds != [] {
      StepNumbers(db, cmds[0]);
      RunNumbers(Apply(db, cmds[0]).0, cmds[1..]);
    }
  }

  lemma {:induction false} RetiredForever(db: Db, cmds: seq<Cmd>, file: string, inst: nat)
    requires Retired(db, file, inst)
    ensures Retired(Run(db, cmds), file, inst)
    decreases cmds
  {
    if cmds != [] {
      StepRetired(db, cmds[0], file, inst);
      RetiredForever(Apply(db, cmds[0]).0, cmds[1..], file, inst);
    }
  }

  /** After a successful delete of (file, inst) that pair is dead on every continuation: even
      if the name is created again, every later operation with it fails. */
  lemma DeletedPairIsDead(db: Db, file: string, inst: nat, cmds: seq<Cmd>, content: string, client: string)
    requires Numbered(db) && Apply(db, Delete(file, inst)).1 == Ok
    ensures var later := Run(Apply(db, Delete(file, inst)).0, cmds);
            && Apply(later, Read(file, inst)) == (later, Fails)
            && Apply(later, Update(file, inst, content)) == (later, Fails)
            && Apply(later, Delete(file, inst)) == (later, Fails)
            && Apply(later, Lock(file, inst, client)) == (later, Fails)
            && Apply(later, Unlock(file, inst)) == (later, Fails)
  {
    assert file in Ages(db);
    RetiredForever(Apply(db, Delete(file, inst)).0, cmds, file, inst);
  }

  /** Two creates on one run never return the same number; later ones return larger ones. */
  lemma NumbersIncrease(db: Db, cmds: seq<Cmd>, i: nat, j: nat)
    requires Numbered(db) && i < j < |cmds|
    requires cmds[i].Create? && ReplyAt(db, cmds, i).Number?
    requires cmds[j].Create? && ReplyAt(db, cmds, j).Number?
    ensures ReplyAt(db, cmds, i).inst < ReplyAt(db, cmds, j).inst
  {
    RunNumbers(db, cmds[..i + 1]);
    AtStep(db, cmds, i);
    AtSplit(db, cmds, i + 1, j);
    RunNumbers(At(db, cmds, i + 1), cmds[i + 1..j]);
  }

  // ---------------------------------------------------------------- counting grants and changes

  predicate Granted(db: Db, cmd: Cmd, file: string, inst: nat) {
    cmd.Lock? && cmd.file == file && cmd.inst == inst && Apply(db, cmd).1 == Ok
  }

  function Grants(db: Db, cmds: seq<Cmd>, file: string, inst: nat): nat
    decreases cmds
  {
    if cmds == [] then 0
    else (if Granted(db, cmds[0], file, inst) then 1 else 0)
         + Grants(Apply(db, cmds[0]).0, cmds[1..], file, inst)
  }

  /** The command succeeds and writes the content of the node: an update of it, or a create
      or delete of one of its children. */
  predicate Touches(db: Db, cmd: Cmd, file: string, inst: nat) {
    && Live(db, file, inst)
    && match cmd
       case Create(f, _) => ParentName(f) == file != "/" && CanCreate(db, f)
       case Delete(f, n) => ParentName(f) == file != "/" && Apply(db, cmd).1 == Ok
       case Update(f, n, _) => f == file && Apply(db, cmd).1 == Ok
       case _ => false
  }

  function Changes(db: Db, cmds: seq<Cmd>, file: string, inst: nat): nat
    decreases cmds
  {
    if cmds == [] then 0
    else (if Touches(db, cmds[0], file, inst) then 1 else 0)
         + Changes(Apply(db, cmds[0]).0, cmds[1..], file, inst)
  }

  function LockGen(db: Db, file: string, inst: nat): nat {
    if Live(db, file, inst) then db.fs[file].lockGen else 0
  }

  function ContentGen(db: Db, file: string, inst: nat): nat {
    if Live(db, file, inst) then db.fs[file].contentGen else 0
  }

  lemma StepCounts(db: Db, cmd: Cmd, file: string, inst: nat)
    requires Live(Apply(db, cmd).0, file, inst)
    ensures LockGen(Apply(db, cmd).0, file, inst)
         == LockGen(db, file, inst) + (if Granted(db, cmd, file, inst) then 1 else 0)
    ensures ContentGen(Apply(db, cmd).0, file, inst)
         == ContentGen(db, file, inst) + (if Touches(db, cmd, file, inst) then 1 else 0)
  {}

  /** On every run, a live node's generation numbers are the number of lock grants and of
      content changes its instance has had, on top of what it started with. */
  lemma {:induction false} GenerationsCount(db: Db, cmds: seq<Cmd>, file: string, inst: nat)
    requires Numbered(db) && Live(Run(db, cmds), file, inst)
    ensures Run(db, cmds).fs[file].lockGen
         == LockGen(db, file, inst) + Grants(db, cmds, file, inst)
    ensures Run(db, cmds).fs[file].contentGen
         == ContentGen(db, file, inst) + Changes(db, cmds, file, inst)
    decreases cmds
  {
    if cmds != [] {
      var next := Apply(db, cmds[0]).0;
      StepNumbers(db, cmds[0]);
      GenerationsCount(next, cmds[1..], file, inst);
      if Live(next, file, inst) {
        StepCounts(db, cmds[0], file, inst);
      } else {
        if Live(db, file, inst) {
          assert file in Ages(db);
          RetiredForever(next, cmds[1..], file, inst);
          assert false;
        }
        assert !Granted(db, cmds[0], file, inst) && !Touches(db, cmds[0], file, inst);
      }
    }
  }

  // ---------------------------------------------------------------- one holder at a time

  /** While nobody resets it, a held lock stays with its owner, and the node stays. */
  lemma {:induction false} HeldUntilReset(db: Db, cmds: seq<Cmd>, file: string, inst: nat)
    requires Live(db, file, inst) && db.fs[file].owner != NO_OWNER
    requires Unlock(file, inst) !in cmds
    ensures Live(Run(db, cmds), file, inst)
    ensures Run(db, cmds).fs[file].owner == db.fs[file].owner
    decreases cmds
  {
    if cmds != [] {
      assert cmds[0] != Unlock(file, inst);
      HeldUntilReset(Apply(db, cmds[0]).0, cmds[1..], file, inst);
    }
  }

  /** Between two grants of the same lock, the first to a real client, there is a reset. */
  lemma ResetBetweenGrants(db: Db, cmds: seq<Cmd>, i: nat, j: nat, file: string, inst: nat)
    requires i < j < |cmds|
    requires Granted(At(db, cmds, i), cmds[i], file, inst) && cmds[i].client != NO_OWNER
    requires Granted(At(db, cmds, j), cmds[j], file, inst)
    ensures exists k :: i < k < j && cmds[k] == Unlock(file, inst)
  {
    AtStep(db, cmds, i);
    AtSplit(db, cmds, i + 1, j);
    var between := cmds[i + 1..j];
    if Unlock(file, inst) !in between {
      HeldUntilReset(At(db, cmds, i + 1), between, file, inst);
      assert false;
    }
    var k :| 0 <= k < |between| && between[k] == Unlock(file, inst);
    assert cmds[i + 1 + k] == Unlock(file, inst);
  }

  /** A grant excludes the next one exactly when the client is not named like the mark for
      "no owner": a client with that name is told it has the lock and does not exclude anyone. */
  lemma GrantExcludesIff(db: Db, file: string, inst: nat, client: string, other: string)
    requires Apply(db, Lock(file, inst, client)).1 == Ok
    ensures Apply(Apply(db, Lock(file, inst, client)).0, Lock(file, inst, other)).1 == Fails
       <==> client != NO_OWNER
  {}
}
