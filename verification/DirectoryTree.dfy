/**
 The name space is a tree, and each directory's stored child list is exact: it is the
 encoding of the existing children in creation order.
 */
module DirectoryTree {
  import opened Text
  import opened Database

  /** Distinct positive numbers up to max. */
  ghost predicate Stamped<K(!new)>(ages: map<K, nat>, max: nat) {
    && (forall f :: f in ages ==> 0 < ages[f] <= max)
    && (forall f, g :: f in ages && g in ages && ages[f] == ages[g] ==> f == g)
  }

  /** Instance numbers are distinct, positive and bounded by the stored maximum. */
  ghost predicate Numbered(db: Db) {
    Stamped(Ages(db), db.maxInst)
  }

  ghost predicate Rooted(db: Db) {
    && (forall f {:trigger NameOk(f)} :: f in db.fs ==> NameOk(f))
    && (forall f {:trigger ParentPresent(db, f)} :: f in db.fs ==> ParentPresent(db, f))
  }

  /** The instance number of each node. */
  ghost function Ages(db: Db): map<string, nat> {
    map f | f in db.fs :: db.fs[f].inst
  }

  ghost predicate Ascending<K(!new)>(ages: map<K, nat>, names: seq<K>) {
    && (forall i :: 0 <= i < |names| ==> names[i] in ages)
    && (forall i, j :: 0 <= i < j < |names| ==> ages[names[i]] < ages[names[j]])
  }

  /** names enumerates kids, oldest first. */
  ghost predicate Lists<K(!new)>(ages: map<K, nat>, kids: set<K>, names: seq<K>) {
    && Ascending(ages, names)
    && (forall k :: k in names <==> k in kids)
  }

  ghost function Children(db: Db, d: string): set<string> {
    set f | f in db.fs && ParentName(f) == d
  }

  /** The content of directory d is the encoding of its children in creation order. */
  ghost predicate Indexed(db: Db, d: string)
    requires d in db.fs
  {
    && db.fs[d].content == Encode(Pieces(db.fs[d].content))
    && Lists(Ages(db), Children(db, d), Pieces(db.fs[d].content))
  }

  ghost predicate TreeInv(db: Db) {
    && Numbered(db)
    && Rooted(db)
    && (forall d {:trigger Indexed(db, d)} :: IsDirectory(db, d) ==> Indexed(db, d))
  }

  lemma ChildrenArePlain(db: Db, d: string)
    requires TreeInv(db) && IsDirectory(db, d)
    ensures forall n :: n in Pieces(db.fs[d].content) ==> Plain(n)
  {
    assert Indexed(db, d);
    forall n | n in Pieces(db.fs[d].content) ensures Plain(n) {
      assert n in Children(db, d) && NameOk(n);
      NamesArePlain(n);
    }
  }

  lemma {:induction false} WithoutKeepsOrder<K(!new)>(ages: map<K, nat>, names: seq<K>, node: K)
    requires Ascending(ages, names)
    ensures Ascending(ages - {node}, Without(names, node))
  {
    if names != [] {
      var front, last := names[..|names| - 1], names[|names| - 1];
      WithoutKeepsOrder(ages, front, node);
      var kept := Without(front, node);
      forall i | 0 <= i < |kept| && last != node ensures ages[kept[i]] < ages[last] {
        assert kept[i] in front;
        var k :| 0 <= k < |front| && front[k] == kept[i];
        assert names[k] == kept[i];
      }
    }
  }

  lemma AppendYoungest<K(!new)>(ages: map<K, nat>, kids: set<K>, names: seq<K>, k: K, age: nat)
    requires Lists(ages, kids, names) && k !in ages
    requires forall f :: f in ages ==> ages[f] < age
    ensures Lists(ages[k := age], kids, names)
    ensures Lists(ages[k := age], kids + {k}, names + [k])
  {}

  lemma RemoveOne<K(!new)>(ages: map<K, nat>, kids: set<K>, names: seq<K>, k: K)
    requires Lists(ages, kids, names)
    ensures Lists(ages - {k}, kids - {k}, Without(names, k))
    ensures k !in kids ==> Lists(ages - {k}, kids, names)
  {
    WithoutKeepsOrder(ages, names, k);
    if k !in kids {
      assert forall i :: 0 <= i < |names| ==> names[i] in names;
    }
  }

  /** The nodes other than one exist in both tables or in neither, and are of one kind. */
  ghost predicate SameKinds(db: Db, post: Db, except: string) {
    forall f {:trigger IsDirectory(db, f)} {:trigger IsDirectory(post, f)} ::
      f != except ==> (IsDirectory(db, f) <==> IsDirectory(post, f))
  }

  lemma CreateKeepsTree(db: Db, file: string, isDir: bool)
    requires TreeInv(db) && NameOk(file) && CanCreate(db, file)
    ensures TreeInv(Created(db, file, isDir))
  {
    var post := Created(db, file, isDir);
    ChildrenAfterCreate(db, file, isDir, file);
    CreatedIsRooted(db, file, isDir);
    NoChildrenYet(db, file);
    forall d | IsDirectory(post, d) ensures Indexed(post, d) {
      CreatedIndex(db, file, isDir, d);
    }
  }

  lemma CreatedIndex(db: Db, file: string, isDir: bool, d: string)
    requires TreeInv(db) && NameOk(file) && CanCreate(db, file)
    requires Children(db, file) == {} && ParentName(file) != file
    requires IsDirectory(Created(db, file, isDir), d)
    ensures Indexed(Created(db, file, isDir), d)
  {
    if d == file {
      ChildrenAfterCreate(db, file, isDir, d);
      assert Pieces("") == [];
    } else {
      assert Indexed(db, d) && NameOk(d);
      ChildrenArePlain(db, d);
      NamesArePlain(file);
      CreatedIsListed(db, file, isDir, d);
    }
  }

  lemma CreatedIsListed(db: Db, file: string, isDir: bool, d: string)
    requires CanCreate(db, file) && Numbered(db) && Plain(file)
    requires d in db.fs && d != "/" && Indexed(db, d)
    requires forall n :: n in Pieces(db.fs[d].content) ==> Plain(n)
    ensures Indexed(Created(db, file, isDir), d)
  {
    var content := db.fs[d].content;
    ChildrenAfterCreate(db, file, isDir, d);
    AppendYoungest(Ages(db), Children(db, d), Pieces(content), file, db.maxInst + 1);
    if d == ParentName(file) {
      ReadBackAppended(content, file);
    }
  }

  lemma ReadBackAppended(content: string, file: string)
    requires content == Encode(Pieces(content)) && Plain(file)
    requires forall n :: n in Pieces(content) ==> Plain(n)
    ensures Pieces(DirContentCreate(content, file)) == Pieces(content) + [file]
    ensures DirContentCreate(content, file) == Encode(Pieces(content) + [file])
  {
    ChildListEdits(Pieces(content), file);
  }

  lemma ChildrenAfterCreate(db: Db, file: string, isDir: bool, d: string)
    requires CanCreate(db, file)
    ensures Children(Created(db, file, isDir), d)
         == Children(db, d) + (if d == ParentName(file) then {file} else {})
    ensures Ages(Created(db, file, isDir)) == Ages(db)[file := db.maxInst + 1]
  {}

  lemma CreatedIsRooted(db: Db, file: string, isDir: bool)
    requires TreeInv(db) && NameOk(file) && CanCreate(db, file)
    ensures Rooted(Created(db, file, isDir))
  {
    var post := Created(db, file, isDir);
    assert SameKinds(db, post, file);
    forall f | f in post.fs ensures ParentPresent(post, f) && NameOk(f) {
      if f in db.fs {
        assert ParentPresent(db, f) && NameOk(f);
      }
    }
  }

  lemma NoChildrenYet(db: Db, file: string)
    requires TreeInv(db) && NameOk(file) && file !in db.fs
    ensures Children(db, file) == {}
    ensures ParentName(file) != file
  {
    ParentOfName(file);
    forall f | f in db.fs ensures ParentName(f) != file {
      assert ParentPresent(db, f);
    }
  }

  lemma DeleteKeepsTree(db: Db, file: string, inst: nat)
    requires TreeInv(db) && CanDelete(db, file, inst)
    ensures ParentPresent(db, file)
    ensures TreeInv(Deleted(db, file))
  {
    assert ParentPresent(db, file) && NameOk(file);
    var post := Deleted(db, file);
    ParentOfName(file);
    ChildrenAfterDelete(db, file, file);
    DeletedIsChildless(db, file, inst);
    DeletedIsRooted(db, file);
    forall d | IsDirectory(post, d) ensures Indexed(post, d) {
      DeletedIndex(db, file, d);
    }
  }

  lemma DeletedIndex(db: Db, file: string, d: string)
    requires TreeInv(db) && file in db.fs && ParentPresent(db, file) && ParentName(file) != file
    requires IsDirectory(db, d) && d != file
    ensures Indexed(Deleted(db, file), d)
  {
    ChildrenAfterDelete(db, file, d);
    assert Indexed(db, d) && NameOk(d);
    var names := Pieces(db.fs[d].content);
    RemoveOne(Ages(db), Children(db, d), names, file);
    if d == ParentName(file) {
      ChildrenArePlain(db, d);
      PiecesOfEncode(Without(names, file));
    }
  }

  lemma ChildrenAfterDelete(db: Db, file: string, d: string)
    requires file in db.fs && ParentPresent(db, file) && ParentName(file) != file
    ensures Children(Deleted(db, file), d) == Children(db, d) - {file}
    ensures d != ParentName(file) ==> file !in Children(db, d)
    ensures Ages(Deleted(db, file)) == Ages(db) - {file}
  {}

  lemma DeletedIsChildless(db: Db, file: string, inst: nat)
    requires TreeInv(db) && CanDelete(db, file, inst)
    ensures Children(db, file) == {}
  {
    assert NameOk(file);
    if db.fs[file].isDir {
      assert Indexed(db, file) && Pieces("") == [];
      assert forall f :: f in Children(db, file) ==> f in Pieces("");
    } else {
      forall f | f in db.fs ensures ParentName(f) != file {
        assert ParentPresent(db, f);
      }
    }
  }

  lemma DeletedIsRooted(db: Db, file: string)
    requires TreeInv(db) && file in db.fs && ParentPresent(db, file)
    requires Children(db, file) == {}
    ensures Rooted(Deleted(db, file))
  {
    var post := Deleted(db, file);
    assert SameKinds(db, post, file);
    forall f | f in post.fs ensures ParentPresent(post, f) && NameOk(f) {
      assert ParentPresent(db, f) && NameOk(f);
      assert f !in Children(db, file);
    }
  }

  predicate SameEntry(a: Node, b: Node) {
    a.inst == b.inst && a.isDir == b.isDir && (a.isDir ==> a.content == b.content)
  }

  /** Rewriting the rows' contents of plain files, locks and counters leaves the tree alone. */
  lemma SameShape(db: Db, post: Db)
    requires TreeInv(db)
    requires db.fs.Keys == post.fs.Keys && db.maxInst == post.maxInst
    requires forall f :: f in db.fs ==> SameEntry(db.fs[f], post.fs[f])
    ensures TreeInv(post)
  {
    assert Ages(post) == Ages(db) && forall d :: Children(post, d) == Children(db, d);
    forall f | f in post.fs ensures NameOk(f) && ParentPresent(post, f) {
      assert ParentPresent(db, f) && NameOk(f);
    }
    forall d | IsDirectory(post, d) ensures Indexed(post, d) {
      assert Indexed(db, d);
    }
  }

  /** An update keeps the tree exactly when it fails, hits a plain file, or writes back the
      child list that is already there: `checkAndUpdate` has no directory test. */
  lemma UpdateKeepsTreeIff(db: Db, file: string, inst: nat, content: string)
    requires TreeInv(db)
    ensures TreeInv(Apply(db, Update(file, inst, content)).0)
       <==> !Live(db, file, inst) || !db.fs[file].isDir || content == db.fs[file].content
  {
    var post := Apply(db, Update(file, inst, content)).0;
    if Live(db, file, inst) {
      if !db.fs[file].isDir || content == db.fs[file].content {
        SameShape(db, post);
      } else if TreeInv(post) {
        assert Indexed(db, file) && Indexed(post, file);
        assert Ages(post) == Ages(db) && Children(post, file) == Children(db, file);
        AscendingIsUnique(Ages(db), Pieces(db.fs[file].content), Pieces(content));
      }
    }
  }

  lemma OldestFirst<K(!new)>(ages: map<K, nat>, names: seq<K>, n: K)
    requires Ascending(ages, names) && n in names
    ensures ages[names[0]] <= ages[n]
    ensures n in names[1..] <==> n != names[0]
  {}

  /** Creation order leaves no choice: two lists of the same children are equal. */
  lemma {:induction false} AscendingIsUnique<K(!new)>(ages: map<K, nat>, a: seq<K>, b: seq<K>)
    requires exists max :: Stamped(ages, max)
    requires Ascending(ages, a) && Ascending(ages, b)
    requires forall n :: n in a <==> n in b
    ensures a == b
    decreases |a|
  {
    assert |b| > 0 ==> b[0] in b;
    if a != [] {
      assert a[0] in b;
      OldestFirst(ages, a, b[0]);
      OldestFirst(ages, b, a[0]);
      forall n ensures n in a[1..] <==> n in b[1..] {
        if n in a { OldestFirst(ages, a, n); OldestFirst(ages, b, n); }
      }
      AscendingIsUnique(ages, a[1..], b[1..]);
      assert a == [a[0]] + a[1..] && b == [b[0]] + b[1..];
    }
  }

  /** What a command may do without harm to the tree: creates use legal names, updates
      leave child lists as they are. */
  predicate Harmless(db: Db, cmd: Cmd) {
    match cmd
    case Create(f, _) => NameOk(f)
    case Update(f, inst, content) =>
      !Live(db, f, inst) || !db.fs[f].isDir || content == db.fs[f].content
    case _ => true
  }

  ghost predicate HarmlessRun(db: Db, cmds: seq<Cmd>)
    decreases cmds
  {
    cmds != [] ==> Harmless(db, cmds[0]) && HarmlessRun(Apply(db, cmds[0]).0, cmds[1..])
  }

  lemma StepKeepsTree(db: Db, cmd: Cmd)
    requires TreeInv(db) && Harmless(db, cmd)
    ensures TreeInv(Apply(db, cmd).0)
    ensures Apply(db, cmd).1 != Aborts
  {
    match cmd
    case Create(f, isDir) =>
      if CanCreate(db, f) { CreateKeepsTree(db, f, isDir); }
    case Delete(f, inst) =>
      if CanDelete(db, f, inst) { DeleteKeepsTree(db, f, inst); }
    case Update(f, inst, content) => UpdateKeepsTreeIff(db, f, inst, content);
    case Lock(_, _, _) => SameShape(db, Apply(db, cmd).0);
    case Unlock(_, _) => SameShape(db, Apply(db, cmd).0);
    case _ =>
  }

  /** On every run of harmless commands from the empty store the tree is intact, and the
      assertions in delete never fire whatever command comes next. */
  lemma {:induction false} RunKeepsTree(db: Db, cmds: seq<Cmd>)
    requires TreeInv(db) && HarmlessRun(db, cmds)
    ensures TreeInv(Run(db, cmds))
    ensures forall f, inst :: Apply(Run(db, cmds), Delete(f, inst)).1 != Aborts
    decreases cmds
  {
    if cmds == [] {
      forall f, inst ensures Apply(db, Delete(f, inst)).1 != Aborts {
        StepKeepsTree(db, Delete(f, inst));
      }
    } else {
      StepKeepsTree(db, cmds[0]);
      RunKeepsTree(Apply(db, cmds[0]).0, cmds[1..]);
    }
  }

  /** Every proper prefix of a stored path that ends before a slash is a stored directory,
      so each node is reached from the root. */
  lemma {:induction false} AncestorsExist(db: Db, file: string, cut: nat)
    requires TreeInv(db) && file in db.fs
    requires 0 < cut < |file| && file[cut] == '/'
    ensures IsDirectory(db, file[..cut])
    decreases |file|
  {
    var parent := ParentName(file);
    ParentOfName(file);
    var last := LastSlash(file, |file| - 1);
    assert cut <= last;
    assert ParentPresent(db, file);
    if cut < last {
      assert parent[cut] == '/' && parent[..cut] == file[..cut];
      AncestorsExist(db, parent, cut);
    }
  }
}
