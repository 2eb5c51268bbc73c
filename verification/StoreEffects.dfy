/**
 What each command to the store answers and changes, stated on the table of nodes itself:
 when it succeeds, which fields it sets, and that it touches nothing else.
 */
module StoreEffects {
  import opened Text
  import opened Database

  /** The tables agree on every name outside the set. */
  ghost predicate SameExcept(a: map<string, Node>, b: map<string, Node>, names: set<string>) {
    forall f {:trigger f in a} {:trigger f in b} :: f !in names ==> (f in a <==> f in b) && (f in a ==> a[f] == b[f])
  }

  /** There is room for a name: the directory above it is the root or is stored as a directory. */
  predicate HasRoom(fs: map<string, Node>, file: string) {
    ParentName(file) == "/" || (ParentName(file) in fs && fs[ParentName(file)].isDir)
  }

  /** A create succeeds exactly when the name is new and there is room for it, however many
      children the directory has; it then returns the next number. */
  lemma CreateSucceedsIff(db: Db, file: string, isDir: bool)
    ensures var (post, r) := Apply(db, Create(file, isDir));
            && (r.Number? <==> file !in db.fs && HasRoom(db.fs, file))
            && (r.Number? ==> r.inst == db.maxInst + 1 && post.maxInst == r.inst)
            && (!r.Number? ==> r == Fails && post == db)
  {}

  /** The new node is empty, unowned and of the kind asked for; the directory above gets the name
      at the end of its list, with its generation and checksum; no other node changes. */
  lemma CreateEffect(db: Db, file: string, isDir: bool)
    requires Apply(db, Create(file, isDir)).1.Number?
    ensures var (post, r) := Apply(db, Create(file, isDir));
            && file in post.fs && post.fs[file] == Node("", NO_OWNER, r.inst, 0, 0, Raw(0), isDir)
            && SameExcept(post.fs, db.fs, {file, ParentName(file)})
  {}

  lemma CreateListsChild(db: Db, file: string, isDir: bool)
    requires Apply(db, Create(file, isDir)).1.Number? && ParentName(file) != "/"
    ensures var post, up := Apply(db, Create(file, isDir)).0, ParentName(file);
            && up in db.fs && up in post.fs
            && post.fs[up].content == db.fs[up].content + "|" + file
            && post.fs[up].contentGen == db.fs[up].contentGen + 1
            && post.fs[up].checksum == HashOf(post.fs[up].content)
            && post.fs[up].owner == db.fs[up].owner && post.fs[up].inst == db.fs[up].inst
            && post.fs[up].lockGen == db.fs[up].lockGen && post.fs[up].isDir
  {}

  lemma RootHasNoList(db: Db, file: string, isDir: bool)
    requires ParentName(file) == "/"
    ensures SameExcept(Apply(db, Create(file, isDir)).0.fs, db.fs, {file})
  {}

  /** An open succeeds exactly when the node is there, and only looks at it. */
  lemma OpenSucceedsIff(db: Db, file: string)
    ensures var (post, r) := Apply(db, Open(file));
            && post == db && (r.Number? <==> file in db.fs)
            && (r.Number? ==> r.inst == db.fs[file].inst) && (!r.Number? ==> r == Fails)
  {}

  /** A delete succeeds exactly when the number is right, nobody owns the node, a directory is
      empty and the directory above is there; without that one the assertion fails. */
  lemma DeleteSucceedsIff(db: Db, file: string, inst: nat)
    ensures var (post, r) := Apply(db, Delete(file, inst));
            var free := file in db.fs && db.fs[file].inst == inst && db.fs[file].owner == NO_OWNER
                        && !(db.fs[file].isDir && db.fs[file].content != "");
            && (r == Ok <==> free && HasRoom(db.fs, file))
            && (r == Aborts <==> free && !HasRoom(db.fs, file))
            && (r != Ok ==> post == db && (r == Aborts || r == Fails))
  {}

  lemma DeleteEffect(db: Db, file: string, inst: nat)
    requires Apply(db, Delete(file, inst)).1 == Ok
    ensures var post, up := Apply(db, Delete(file, inst)).0, ParentName(file);
            && file !in post.fs && post.maxInst == db.maxInst
            && SameExcept(post.fs, db.fs, if up == "/" then {file} else {file, up})
            && (up != "/" && up != file ==>
                  && up in db.fs && up in post.fs
                  && post.fs[up].contentGen == db.fs[up].contentGen + 1
                  && post.fs[up].checksum == HashOf(post.fs[up].content)
                  && post.fs[up].owner == db.fs[up].owner && post.fs[up].inst == db.fs[up].inst
                  && post.fs[up].lockGen == db.fs[up].lockGen && post.fs[up].isDir)
  {}

  /** The name leaves the list of the directory above, and the others keep their order. */
  lemma DeleteUnlistsChild(db: Db, file: string, inst: nat, kids: seq<string>)
    requires Apply(db, Delete(file, inst)).1 == Ok && ParentName(file) != "/" && ParentName(file) != file
    requires db.fs[ParentName(file)].content == Encode(kids) && forall k :: k in kids ==> Plain(k)
    ensures Apply(db, Delete(file, inst)).0.fs[ParentName(file)].content == Encode(Without(kids, file))
  {
    PiecesOfEncode(kids);
  }

  /** A read succeeds exactly when the number is right, and delivers every field but the owner. */
  lemma ReadSucceedsIff(db: Db, file: string, inst: nat)
    ensures var (post, r) := Apply(db, Read(file, inst));
            && post == db && (r.Contents? <==> file in db.fs && db.fs[file].inst == inst)
            && (!r.Contents? ==> r == Fails)
            && (r.Contents? ==>
                  var n := db.fs[file];
                  && r.content == n.content && r.meta.inst == n.inst && r.meta.contentGen == n.contentGen
                  && r.meta.lockGen == n.lockGen && r.meta.checksum == n.checksum && r.meta.isDir == n.isDir)
  {}

  /** An update succeeds exactly when the number is right; only that node's content, checksum
      and content generation change. */
  lemma UpdateSucceedsIff(db: Db, file: string, inst: nat, content: string)
    ensures var (post, r) := Apply(db, Update(file, inst, content));
            && (r == Ok <==> file in db.fs && db.fs[file].inst == inst) && (r != Ok ==> r == Fails && post == db)
            && post.maxInst == db.maxInst && SameExcept(post.fs, db.fs, {file})
            && (r == Ok ==>
                  var n := db.fs[file];
                  && file in post.fs
                  && post.fs[file] == Node(content, n.owner, n.inst, n.contentGen + 1, n.lockGen, HashOf(content),
                                           n.isDir))
  {}

  /** A lock succeeds exactly when the number is right and nobody owns the node; only its owner
      and its lock generation change. */
  lemma LockSucceedsIff(db: Db, file: string, inst: nat, client: string)
    ensures var (post, r) := Apply(db, Lock(file, inst, client));
            && (r == Ok <==> file in db.fs && db.fs[file].inst == inst && db.fs[file].owner == NO_OWNER)
            && (r != Ok ==> r == Fails && post == db)
            && post.maxInst == db.maxInst && SameExcept(post.fs, db.fs, {file})
            && (r == Ok ==>
                  var n := db.fs[file];
                  && file in post.fs
                  && post.fs[file] == Node(n.content, client, n.inst, n.contentGen, n.lockGen + 1, n.checksum, n.isDir))
  {}

  /** An unlock succeeds exactly when the number is right, whoever asks; only the owner changes. */
  lemma UnlockSucceedsIff(db: Db, file: string, inst: nat)
    ensures var (post, r) := Apply(db, Unlock(file, inst));
            && (r == Ok <==> file in db.fs && db.fs[file].inst == inst) && (r != Ok ==> r == Fails && post == db)
            && post.maxInst == db.maxInst && SameExcept(post.fs, db.fs, {file})
            && (r == Ok ==>
                  var n := db.fs[file];
                  && file in post.fs
                  && post.fs[file] == Node(n.content, NO_OWNER, n.inst, n.contentGen, n.lockGen, n.checksum, n.isDir))
  {}

  /** The listing has the owner of every node, unowned ones included. */
  lemma StatesEffect(db: Db)
    ensures var (post, r) := Apply(db, States);
            post == db && r.Rows? && forall f, owner :: (f, owner) in r.rows <==> f in db.fs && db.fs[f].owner == owner
  {}

  // ---------------------------------------------------------------- any number of children

  function CreateAll(names: seq<string>, isDir: bool): seq<Cmd> {
    if names == [] then [] else [Create(names[0], isDir)] + CreateAll(names[1..], isDir)
  }

  /** New names for one directory, each once. */
  ghost predicate NewIn(db: Db, dir: string, names: seq<string>) {
    && (forall n :: n in names ==> ParentName(n) == dir && n !in db.fs)
    && (forall i, j :: 0 <= i < j < |names| ==> names[i] != names[j])
  }

  /** The directory is stored with this list of children. */
  predicate Lists(db: Db, dir: string, kids: seq<string>) {
    dir != "/" && dir in db.fs && db.fs[dir].isDir && db.fs[dir].content == Encode(kids)
  }

  lemma OneMore(db: Db, dir: string, names: seq<string>, kids: seq<string>, isDir: bool)
    requires Lists(db, dir, kids)
    requires names != [] && NewIn(db, dir, names)
    ensures var (post, r) := Apply(db, Create(names[0], isDir));
            && r == Number(db.maxInst + 1) && post.maxInst == db.maxInst + 1 && Live(post, names[0], db.maxInst + 1)
            && Lists(post, dir, kids + [names[0]])
            && NewIn(post, dir, names[1..])
  {
    var post := Apply(db, Create(names[0], isDir)).0;
    assert names[0] in names && names[0] != dir;
    CreateSucceedsIff(db, names[0], isDir);
    CreateEffect(db, names[0], isDir);
    CreateListsChild(db, names[0], isDir);
    EncodeIsJoined(kids, names[0]);
    forall n | n in names[1..] ensures n !in post.fs {
      var i :| 0 <= i < |names[1..]| && names[1..][i] == n;
      assert names[i + 1] == n && n in names && n != dir;
    }
  }

  lemma FirstOfCreates(db: Db, names: seq<string>, isDir: bool)
    requires names != []
    ensures Run(db, CreateAll(names, isDir)) == Run(Apply(db, Create(names[0], isDir)).0, CreateAll(names[1..], isDir))
  {
    assert CreateAll(names, isDir)[1..] == CreateAll(names[1..], isDir);
  }

  /** A later create leaves a node of another name, other than its own directory, alone. */
  lemma {:induction false} CreatesKeep(db: Db, names: seq<string>, isDir: bool, f: string, inst: nat)
    requires Live(db, f, inst)
    ensures Live(Run(db, CreateAll(names, isDir)), f, inst)
    decreases names
  {
    if names != [] {
      var post := Apply(db, Create(names[0], isDir)).0;
      assert Live(post, f, inst) by {
        CreateSucceedsIff(db, names[0], isDir);
      }
      CreatesKeep(post, names[1..], isDir, f, inst);
      FirstOfCreates(db, names, isDir);
    }
  }

  lemma MoveOne<T>(a: seq<T>, b: seq<T>)
    requires b != []
    ensures a + [b[0]] + b[1..] == a + b
  {}

  lemma {:induction false} ListGrows(db: Db, dir: string, names: seq<string>, kids: seq<string>, isDir: bool)
    requires Lists(db, dir, kids)
    requires NewIn(db, dir, names)
    ensures var post := Run(db, CreateAll(names, isDir));
            Lists(post, dir, kids + names) && post.maxInst == db.maxInst + |names|
    decreases names
  {
    if names == [] {
      assert kids + names == kids;
    } else {
      OneMore(db, dir, names, kids, isDir);
      ListGrows(Apply(db, Create(names[0], isDir)).0, dir, names[1..], kids + [names[0]], isDir);
      FirstOfCreates(db, names, isDir);
      MoveOne(kids, names);
    }
  }

  lemma {:induction false} NumberedInOrder(db: Db, dir: string, names: seq<string>, kids: seq<string>, isDir: bool,
                                           i: nat)
    requires Lists(db, dir, kids)
    requires NewIn(db, dir, names) && i < |names|
    ensures Live(Run(db, CreateAll(names, isDir)), names[i], db.maxInst + 1 + i)
    decreases names
  {
    var mid := Apply(db, Create(names[0], isDir)).0;
    OneMore(db, dir, names, kids, isDir);
    FirstOfCreates(db, names, isDir);
    if i == 0 {
      CreatesKeep(mid, names[1..], isDir, names[0], db.maxInst + 1);
    } else {
      NumberedInOrder(mid, dir, names[1..], kids + [names[0]], isDir, i - 1);
    }
  }

  /** A directory takes any number of new children: each create succeeds, the numbers go up one
      by one, and the stored list grows by the names in that order. */
  lemma DirectoryTakesAll(db: Db, dir: string, names: seq<string>, kids: seq<string>, isDir: bool)
    requires Lists(db, dir, kids)
    requires NewIn(db, dir, names)
    ensures var post := Run(db, CreateAll(names, isDir));
            && Lists(post, dir, kids + names) && post.maxInst == db.maxInst + |names|
            && forall i :: 0 <= i < |names| ==> Live(post, names[i], db.maxInst + 1 + i)
  {
    ListGrows(db, dir, names, kids, isDir);
    forall i | 0 <= i < |names| ensures Live(Run(db, CreateAll(names, isDir)), names[i], db.maxInst + 1 + i) {
      NumberedInOrder(db, dir, names, kids, isDir, i);
    }
  }
}
