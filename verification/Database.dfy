/**
 The replicated store: a table of nodes and the largest instance number given out.

 The functions say what each operation does to the table as a value; `ServerDb` is the
 object whose methods read and update the rows one by one.
 */
module Database {
  import opened Text

  const NO_OWNER := "empty"

  /** A 64-bit hash value kept symbolic: a given number, or the hash of a text. */
  datatype Hash = Raw(n: nat) | HashOf(text: string)

  datatype Node = Node(content: string, owner: string, inst: nat, contentGen: nat,
                       lockGen: nat, checksum: Hash, isDir: bool)

  datatype Db = Db(fs: map<string, Node>, maxInst: nat)

  const EMPTY_DB := Db(map[], 0)

  datatype Meta = Meta(inst: nat, contentGen: nat, lockGen: nat, checksum: Hash, isDir: bool)

  datatype Cmd =
    | Create(file: string, isDir: bool)
    | Open(file: string)
    | Delete(file: string, inst: nat)
    | Read(file: string, inst: nat)
    | Update(file: string, inst: nat, content: string)
    | Lock(file: string, inst: nat, client: string)
    | Unlock(file: string, inst: nat)
    | States

  /** Aborts stands for a failed assertion in the operation. */
  datatype Reply =
    | Ok
    | Fails
    | Aborts
    | Number(inst: nat)
    | Contents(content: string, meta: Meta)
    | Rows(rows: set<(string, string)>)

  // ---------------------------------------------------------------- the operations as values

  /** The node exists with this instance number. */
  predicate Live(db: Db, file: string, inst: nat) {
    file in db.fs && db.fs[file].inst == inst
  }

  predicate IsDirectory(db: Db, file: string) {
    file in db.fs && db.fs[file].isDir
  }

  /** The root always exists; any other parent must be a stored directory. */
  predicate ParentPresent(db: Db, file: string) {
    ParentName(file) == "/" || IsDirectory(db, ParentName(file))
  }

  predicate CanCreate(db: Db, file: string) {
    file !in db.fs && ParentPresent(db, file)
  }

  function NewNode(inst: nat, isDir: bool): Node {
    Node("", NO_OWNER, inst, 0, 0, Raw(0), isDir)
  }

  function Rewritten(node: Node, content: string): Node {
    node.(content := content, contentGen := node.contentGen + 1, checksum := HashOf(content))
  }

  function Created(db: Db, file: string, isDir: bool): Db
    requires CanCreate(db, file)
  {
    var parent := ParentName(file);
    var fs := db.fs[file := NewNode(db.maxInst + 1, isDir)];
    Db(if parent == "/" then fs
       else fs[parent := Rewritten(db.fs[parent], DirContentCreate(db.fs[parent].content, file))],
       db.maxInst + 1)
  }

  predicate CanDelete(db: Db, file: string, inst: nat) {
    && Live(db, file, inst)
    && db.fs[file].owner == NO_OWNER
    && (db.fs[file].isDir ==> db.fs[file].content == "")
  }

  function Deleted(db: Db, file: string): Db
    requires file in db.fs && ParentPresent(db, file)
  {
    var parent := ParentName(file);
    var fs := db.fs - {file};
    db.(fs :=
      if parent == "/" || parent == file then fs
      else fs[parent := Rewritten(db.fs[parent],
                                  Encode(Without(Pieces(db.fs[parent].content), file)))])
  }

  function Updated(db: Db, file: string, content: string): Db
    requires file in db.fs
  {
    db.(fs := db.fs[file := Rewritten(db.fs[file], content)])
  }

  function Locked(db: Db, file: string, client: string): Db
    requires file in db.fs
  {
    db.(fs := db.fs[file := db.fs[file].(owner := client, lockGen := db.fs[file].lockGen + 1)])
  }

  function Unlocked(db: Db, file: string): Db
    requires file in db.fs
  {
    db.(fs := db.fs[file := db.fs[file].(owner := NO_OWNER)])
  }

  function MetaOf(node: Node): Meta {
    Meta(node.inst, node.contentGen, node.lockGen, node.checksum, node.isDir)
  }

  function Owner(db: Db, file: string): string {
    if file in db.fs then db.fs[file].owner else NO_OWNER
  }

  function StateRows(db: Db): set<(string, string)> {
    set f | f in db.fs :: (f, db.fs[f].owner)
  }

  function Apply(db: Db, cmd: Cmd): (Db, Reply) {
    match cmd
    case Create(f, isDir) =>
      if CanCreate(db, f) then (Created(db, f, isDir), Number(db.maxInst + 1)) else (db, Fails)
    case Open(f) =>
      if f in db.fs then (db, Number(db.fs[f].inst)) else (db, Fails)
    case Delete(f, inst) =>
      if !CanDelete(db, f, inst) then (db, Fails)
      else if !ParentPresent(db, f) then (db, Aborts)
      else (Deleted(db, f), Ok)
    case Read(f, inst) =>
      if Live(db, f, inst) then (db, Contents(db.fs[f].content, MetaOf(db.fs[f]))) else (db, Fails)
    case Update(f, inst, content) =>
      if Live(db, f, inst) then (Updated(db, f, content), Ok) else (db, Fails)
    case Lock(f, inst, client) =>
      if Live(db, f, inst) && db.fs[f].owner == NO_OWNER then (Locked(db, f, client), Ok)
      else (db, Fails)
    case Unlock(f, inst) =>
      if Live(db, f, inst) then (Unlocked(db, f), Ok) else (db, Fails)
    case States => (db, Rows(StateRows(db)))
  }

  function Run(db: Db, cmds: seq<Cmd>): Db
    decreases cmds
  {
    if cmds == [] then db else Run(Apply(db, cmds[0]).0, cmds[1..])
  }

  lemma {:induction false} RunConcat(db: Db, a: seq<Cmd>, b: seq<Cmd>)
    ensures Run(db, a + b) == Run(Run(db, a), b)
    decreases a
  {
    if a == [] {
      assert a + b == b;
    } else {
      assert (a + b)[0] == a[0] && (a + b)[1..] == a[1..] + b;
      RunConcat(Apply(db, a[0]).0, a[1..], b);
    }
  }

  lemma RunAppend(db: Db, cmds: seq<Cmd>, cmd: Cmd)
    ensures Run(db, cmds + [cmd]) == Apply(Run(db, cmds), cmd).0
  {
    RunConcat(db, cmds, [cmd]);
    var d := Run(db, cmds);
    assert Run(d, [cmd]) == Run(Apply(d, cmd).0, []);
  }

  // ---------------------------------------------------------------- the object

  class ServerDb {
    var fs: map<string, Node>
    var maxInstance: nat

    function State(): Db
      reads this
    {
      Db(fs, maxInstance)
    }

    constructor ()
      ensures State() == EMPTY_DB
    {
      fs := map[];
      maxInstance := 0;
    }

    method CheckAndCreate(file: string, isDir: bool) returns (ok: bool, instance: nat)
      modifies this
      ensures (State(), if ok then Number(instance) else Fails)
           == Apply(old(State()), Create(file, isDir))
    {
      if file in fs {
        return false, 0;
      }
      var parentName := GetParentName(file);
      var parentContent, parentGen := "", 0;
      if parentName != "/" {
        if parentName !in fs || !fs[parentName].isDir {
          return false, 0;
        }
        parentContent, parentGen := fs[parentName].content, fs[parentName].contentGen;
      }
      instance := maxInstance + 1;
      fs := fs[file := NewNode(instance, isDir)];
      maxInstance := instance;
      if parentName != "/" {
        var content := DirContentCreate(parentContent, file);
        fs := fs[parentName := fs[parentName].(content := content, contentGen := parentGen + 1,
                                               checksum := HashOf(content))];
      }
      ok := true;
    }

    method CheckAndOpen(file: string) returns (ok: bool, instance: nat)
      ensures (State(), if ok then Number(instance) else Fails) == Apply(State(), Open(file))
    {
      if file !in fs {
        return false, 0;
      }
      return true, fs[file].inst;
    }

    method CheckAndDelete(file: string, inst: nat) returns (r: Reply)
      modifies this
      ensures (State(), r) == Apply(old(State()), Delete(file, inst))
    {
      if file !in fs || fs[file].owner != NO_OWNER || fs[file].inst != inst {
        return Fails;
      }
      if fs[file].isDir && fs[file].content != "" {
        return Fails;
      }
      var parentName := GetParentName(file);
      var parentContent, parentGen := "", 0;
      if parentName != "/" {
        if parentName !in fs || !fs[parentName].isDir {
          return Aborts;
        }
        parentContent, parentGen := fs[parentName].content, fs[parentName].contentGen;
      }
      fs := fs - {file};
      if parentName != "/" && parentName in fs {
        var content := DirContentDelete(parentContent, file);
        fs := fs[parentName := fs[parentName].(content := content, contentGen := parentGen + 1,
                                               checksum := HashOf(content))];
      }
      r := Ok;
    }

    method CheckAndRead(file: string, inst: nat) returns (r: Reply)
      ensures (State(), r) == Apply(State(), Read(file, inst))
    {
      if file !in fs || fs[file].inst != inst {
        return Fails;
      }
      var row := fs[file];
      r := Contents(row.content,
                    Meta(row.inst, row.contentGen, row.lockGen, row.checksum, row.isDir));
    }

    method CheckAndUpdate(file: string, inst: nat, content: string) returns (r: Reply)
      modifies this
      ensures (State(), r) == Apply(old(State()), Update(file, inst, content))
    {
      if file !in fs || fs[file].inst != inst {
        return Fails;
      }
      var gen := fs[file].contentGen + 1;
      fs := fs[file := fs[file].(content := content, contentGen := gen, checksum := HashOf(content))];
      r := Ok;
    }

    method TestAndSetLockOwner(file: string, inst: nat, client: string) returns (r: Reply)
      modifies this
      ensures (State(), r) == Apply(old(State()), Lock(file, inst, client))
    {
      if file !in fs || fs[file].inst != inst {
        return Fails;
      }
      if fs[file].owner != NO_OWNER {
        return Fails;
      }
      var gen := fs[file].lockGen + 1;
      fs := fs[file := fs[file].(owner := client, lockGen := gen)];
      r := Ok;
    }

    method ResetLockOwner(file: string, inst: nat) returns (r: Reply)
      modifies this
      ensures (State(), r) == Apply(old(State()), Unlock(file, inst))
    {
      if file !in fs || fs[file].inst != inst {
        return Fails;
      }
      fs := fs[file := fs[file].(owner := NO_OWNER)];
      r := Ok;
    }

    /** One row for each node, in the table's own order. */
    method GetStates() returns (rows: seq<(string, string)>)
      ensures IsListing(rows, State())
    {
      rows := [];
      var rest := fs.Keys;
      while rest != {}
        invariant rest <= fs.Keys
        invariant |rows| + |rest| == |fs.Keys|
        invariant forall i :: 0 <= i < |rows| ==>
                    rows[i].0 in fs.Keys - rest && rows[i].1 == fs[rows[i].0].owner
        invariant forall f :: f in fs.Keys - rest ==> (f, fs[f].owner) in rows
        decreases rest
      {
        var f :| f in rest;
        rows := rows + [(f, fs[f].owner)];
        rest := rest - {f};
      }
    }
  }

  /** Exactly the table's (name, owner) pairs, each once. */
  ghost predicate IsListing(rows: seq<(string, string)>, db: Db) {
    && |rows| == |db.fs|
    && (forall p :: p in rows <==> p.0 in db.fs && p.1 == db.fs[p.0].owner)
  }

  /** What the replicated store delivers: two listings of the table, one after the other. */
  ghost predicate ListedTwice(rows: seq<(string, string)>, db: Db) {
    exists first, second :: IsListing(first, db) && IsListing(second, db) && rows == first + second
  }

  lemma TwiceIsMembers(rows: seq<(string, string)>, db: Db)
    requires ListedTwice(rows, db)
    ensures forall f, owner :: (f, owner) in rows <==> f in db.fs && owner == db.fs[f].owner
  {}
}
