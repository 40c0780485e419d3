/** The intent-logged removal of one backup set, over a tree whose unsynced removals
    a crash may undo. */
module RetentionPrune {
  import opened Basics
  import opened RetentionRows

  // ----- the tree and its log -----

  datatype Stage = Pruning | Finished

  datatype Progress = Progress(snapshot: Snapshot, protect: Path, rows: seq<Row>, next: nat, intent: bool, stage: Stage)

  /** `live` is what a reader sees; `pending` holds removals that no sync has made
      durable. `log` holds every value the progress file may have after a crash; the
      last is the one a reader sees. */
  datatype Tree = Tree(live: map<Path, Node>, pending: map<Path, Node>, log: seq<Option<Progress>>)

  /** Losing power undoes any of the pending removals, and leaves one progress value. */
  ghost predicate AfterCrash(before: Tree, after: Tree) {
    && after.pending == map[]
    && |after.log| == 1 && after.log[0] in before.log
    && (forall p | p in before.live :: p in after.live && after.live[p] == before.live[p])
    && (forall p | p in after.live :: p in before.live || (p in before.pending && after.live[p] == before.pending[p]))
  }

  datatype Outcome = Done | Failed | Refused

  class Storage {
    var tree: Tree
    var faults: nat
    ghost var visited: set<Tree>

    ghost predicate Valid()
      reads this
    {
      tree in visited && tree.log != []
    }

    constructor (t: Tree)
      requires t.log != []
      ensures Valid() && tree == t && visited == {t} && faults == 0
    {
      tree, faults, visited := t, 0, {t};
    }

    method Fails() returns (failed: bool)
      modifies this`faults
      ensures faults == old(faults) + (if failed then 1 else 0)
    {
      failed := *;
      if failed { faults := faults + 1; }
    }

    method Put(t: Tree)
      requires t.log != []
      modifies this`tree, this`visited
      ensures Valid() && tree == t && visited == old(visited) + {t}
    {
      tree, visited := t, visited + {t};
    }

    /** Removes one entry; a directory only when it is empty. */
    method Remove(path: Path) returns (ok: bool, ghost moved: bool)
      requires Valid()
      modifies this`tree, this`visited, this`faults
      ensures Valid() && faults >= old(faults) && (ok ==> moved)
      ensures !moved ==> tree == old(tree) && visited == old(visited)
      ensures moved ==>
        && path in old(tree).live
        && tree == Removed(old(tree), path) && visited == old(visited) + {tree}
        && (old(tree).live[path].Folder? ==> forall p | p in old(tree).live && p != [] :: Parent(p) != path)
      ensures !ok && faults == old(faults) ==>
        path !in old(tree).live || (old(tree).live[path].Folder? && !Empty(old(tree), path))
    {
      ok, moved := false, false;
      var failed := Fails();
      if failed || path !in tree.live || (tree.live[path].Folder? && !Empty(tree, path)) { return; }
      Put(Removed(tree, path));
      moved := true;
      failed := Fails();
      ok := !failed;
    }

    /** Flushes a directory: the removals made in it are durable. */
    method Sync(directory: Path) returns (ok: bool)
      requires Valid()
      modifies this`tree, this`visited, this`faults
      ensures Valid() && faults >= old(faults) && (!ok <==> faults > old(faults))
      ensures !ok ==> tree == old(tree) && visited == old(visited)
      ensures ok ==> tree == Synced(old(tree), directory) && visited == old(visited) + {tree}
    {
      var failed := Fails();
      if failed { return false; }
      Put(Synced(tree, directory));
      ok := true;
    }

    /** Replaces the progress file by a prepared sibling and flushes its directory. */
    method Save(p: Progress) returns (ok: bool)
      requires Valid()
      modifies this`tree, this`visited, this`faults
      ensures Valid() && faults >= old(faults) && (!ok <==> faults > old(faults))
      ensures tree == old(tree) || tree == Logged(old(tree), p) || tree == Saved(old(tree), p)
      ensures visited <= old(visited) + {Logged(old(tree), p), Saved(old(tree), p)} && old(visited) <= visited
      ensures ok ==> tree == Saved(old(tree), p)
    {
      var failed := Fails();
      if failed { return false; }
      Put(Logged(tree, p));
      failed := Fails();
      if failed { return false; }
      Put(tree.(log := [Some(p)]));
      failed := Fails();
      ok := !failed;
    }
  }

  function Removed(t: Tree, path: Path): Tree
    requires path in t.live
  {
    t.(live := t.live - {path}, pending := t.pending[path := t.live[path]])
  }

  function Synced(t: Tree, directory: Path): Tree {
    t.(pending := map p | p in t.pending && Parent(p) != directory :: t.pending[p])
  }

  function Logged(t: Tree, p: Progress): Tree {
    t.(log := t.log + [Some(p)])
  }

  function Saved(t: Tree, p: Progress): Tree {
    t.(log := [Some(p)])
  }

  predicate Empty(t: Tree, path: Path) {
    forall p | p in t.live :: Parent(p) != path || p == []
  }

  // ----- what is durable -----

  /** Gone for good. */
  predicate Absent(t: Tree, row: Row) {
    row.path !in t.live && row.path !in t.pending
  }

  /** There, as recorded, whatever a crash does. */
  predicate Present(t: Tree, row: Row) {
    row.path in t.live && t.live[row.path] == row.node && row.path !in t.pending
  }

  /** There or not, but never anything else. */
  predicate Owned(t: Tree, row: Row) {
    && (row.path in t.live ==> t.live[row.path] == row.node)
    && (row.path in t.pending ==> t.pending[row.path] == row.node)
  }

  /** Rows before `next` are durably gone, the next one may be in doubt once its
      removal was announced, and later ones are untouched. */
  predicate Covered(t: Tree, rows: seq<Row>, next: nat, intent: bool) {
    && next <= |rows|
    && (forall i | 0 <= i < next :: Absent(t, rows[i]))
    && (next < |rows| ==> if intent then Owned(t, rows[next]) else Present(t, rows[next]))
    && (forall i | next < i < |rows| :: Present(t, rows[i]))
  }

  predicate Untouched(t: Tree, rows: seq<Row>) {
    forall i | 0 <= i < |rows| :: Present(t, rows[i])
  }

  /** A progress record this engine writes. */
  ghost predicate Recognized(p: Progress) {
    && p.protect != p.snapshot.id && IsRows(p.snapshot, p.rows)
    && p.next <= |p.rows| && (p.intent ==> p.next < |p.rows|)
    && (p.stage == Finished ==> p.next == |p.rows| && !p.intent)
  }

  predicate Listed(rows: seq<Row>, path: Path) {
    exists i :: 0 <= i < |rows| && rows[i].path == path
  }

  /** Nothing but rows is left inside the base directory. */
  predicate Classified(t: Tree, id: Path, rows: seq<Row>) {
    forall p | p in t.live && Within(id, p) :: Listed(rows, p)
  }

  /** One possible progress value beside the tree: this cleanup's own one covers it,
      and any other one was there before the first removal. */
  ghost predicate Justified(v: Option<Progress>, t: Tree, id: Path, rows: seq<Row>) {
    if v.Some? && v.value.stage == Pruning && v.value.snapshot.id == id then
      Recognized(v.value) && v.value.rows == rows && Covered(t, rows, v.value.next, v.value.intent)
    else if v.Some? && v.value.stage == Finished && v.value.snapshot.id == id then
      Recognized(v.value) && (Untouched(t, rows) || (v.value.rows == rows && Covered(t, rows, |rows|, false)))
    else Untouched(t, rows)
  }

  ghost predicate Sound(t: Tree, id: Path, rows: seq<Row>) {
    && t.log != []
    && (forall v | v in t.log :: Justified(v, t, id, rows))
    && Classified(t, id, rows)
    && (forall p | p in t.pending :: Listed(rows, p))
  }

  ghost predicate Safe(visited: set<Tree>, id: Path, rows: seq<Row>) {
    forall t | t in visited :: Sound(t, id, rows)
  }

  /** A crash of a sound tree is sound, whichever removals it undoes. */
  lemma CrashSound(before: Tree, after: Tree, id: Path, rows: seq<Row>)
    requires Sound(before, id, rows) && AfterCrash(before, after)
    ensures Sound(after, id, rows)
  {
    var v := after.log[0];
    assert Justified(v, before, id, rows);
    forall i | 0 <= i < |rows|
      ensures Absent(before, rows[i]) ==> Absent(after, rows[i])
      ensures Present(before, rows[i]) ==> Present(after, rows[i])
      ensures Owned(before, rows[i]) ==> Owned(after, rows[i])
    {
    }
    assert Justified(v, after, id, rows);
  }

  // ----- the steps -----

  /** What a call started from, minus the rows it has removed. */
  function Without(live: map<Path, Node>, rows: seq<Row>, from: nat, to: nat): map<Path, Node>
    requires to <= |rows|
  {
    live - set i | from <= i < to :: rows[i].path
  }

  lemma WithoutOne(live: map<Path, Node>, rows: seq<Row>, from: nat, n: nat)
    requires from <= n < |rows|
    ensures Without(live, rows, from, n + 1) == Without(live, rows, from, n) - {rows[n].path}
  {
  }

  /** The intended removal is announced before it happens. */
  lemma Announced(t: Tree, id: Path, rows: seq<Row>, p: Progress)
    requires Sound(t, id, rows) && t.log == [Some(p)] && Recognized(p) && p.stage == Pruning && p.snapshot.id == id
    requires p.next < |rows|
    ensures
      var q := p.(intent := true);
      && p.rows == rows && Recognized(q)
      && Sound(Logged(t, q), id, rows) && Sound(Saved(t, q), id, rows)
  {
    hide IsRows, Classified, Listed;
    assert Justified(t.log[0], t, id, rows);
    ResavedSound(t, id, rows, p.(intent := true));
  }

  /** Saving a value that covers the tree keeps it sound at every moment. */
  lemma ResavedSound(t: Tree, id: Path, rows: seq<Row>, q: Progress)
    requires Sound(t, id, rows) && Justified(Some(q), t, id, rows)
    ensures Sound(Logged(t, q), id, rows) && Sound(Saved(t, q), id, rows)
  {
    hide Recognized, Covered, Untouched, Listed, Classified;
    forall v | v in Logged(t, q).log + Saved(t, q).log
      ensures Justified(v, Logged(t, q), id, rows) && Justified(v, Saved(t, q), id, rows)
    {
      assert Justified(v, t, id, rows);
      SameTree(v, t, Logged(t, q), id, rows);
      SameTree(v, t, Saved(t, q), id, rows);
    }
    SameClassified(t, Logged(t, q), id, rows);
    SameClassified(t, Saved(t, q), id, rows);
  }

  lemma SameTree(v: Option<Progress>, t: Tree, t': Tree, id: Path, rows: seq<Row>)
    requires Justified(v, t, id, rows) && t'.live == t.live && t'.pending == t.pending
    ensures Justified(v, t', id, rows)
  {
    hide Recognized;
  }

  lemma SameClassified(t: Tree, t': Tree, id: Path, rows: seq<Row>)
    requires Classified(t, id, rows) && t'.live == t.live
    ensures Classified(t', id, rows)
  {
    hide Listed;
  }

  /** Once announced, removing the row and flushing its directory stay sound. */
  lemma RemovedSound(t: Tree, id: Path, rows: seq<Row>, p: Progress)
    requires Sound(t, id, rows) && t.log == [Some(p)] && p.stage == Pruning && p.snapshot.id == id && p.intent
    requires Distinctly(rows) && p.next < |rows| && rows[p.next].path in t.live
    ensures Sound(Removed(t, rows[p.next].path), id, rows)
  {
    hide Recognized;
    var t' := Removed(t, rows[p.next].path);
    assert Justified(t.log[0], t, id, rows);
    assert Covered(t, rows, p.next, true);
    assert Covered(t', rows, p.next, true);
    assert Listed(rows, rows[p.next].path);
  }

  lemma SyncedSound(t: Tree, id: Path, rows: seq<Row>, p: Progress, directory: Path)
    requires Sound(t, id, rows) && t.log == [Some(p)] && p.stage == Pruning && p.snapshot.id == id
    ensures Sound(Synced(t, directory), id, rows)
  {
    hide Recognized, Listed;
    assert Justified(t.log[0], t, id, rows);
  }

  /** The row is durably gone, so the next one is the row to announce. */
  lemma Advanced(t: Tree, id: Path, rows: seq<Row>, p: Progress)
    requires Sound(t, id, rows) && t.log == [Some(p)] && Recognized(p) && p.stage == Pruning && p.snapshot.id == id
    requires p.intent
    requires p.rows == rows && p.next < |rows| && Absent(t, rows[p.next])
    ensures
      var q := p.(next := p.next + 1, intent := false);
      && Recognized(q) && Sound(Logged(t, q), id, rows) && Sound(Saved(t, q), id, rows)
  {
    hide IsRows, Classified, Listed;
    assert Justified(t.log[0], t, id, rows);
    ResavedSound(t, id, rows, p.(next := p.next + 1, intent := false));
  }

  lemma Completed(t: Tree, id: Path, rows: seq<Row>, p: Progress)
    requires Sound(t, id, rows) && t.log == [Some(p)] && Recognized(p) && p.stage == Pruning && p.snapshot.id == id
    requires p.rows == rows && p.next == |rows|
    ensures
      var q := p.(stage := Finished);
      && Recognized(q) && Sound(Logged(t, q), id, rows) && Sound(Saved(t, q), id, rows)
      && forall i | 0 <= i < |rows| :: Absent(t, rows[i])
  {
    hide IsRows, Classified, Listed;
    assert Justified(t.log[0], t, id, rows);
    ResavedSound(t, id, rows, p.(stage := Finished));
  }

  /** Below a directory that is next, nothing is left: its files and directories came
      earlier, and anything else would not be classified. */
  lemma NextEmpty(t: Tree, id: Path, rows: seq<Row>, n: nat, intent: bool)
    requires Ordered(id, rows) && Classified(t, id, rows) && Covered(t, rows, n, intent)
    requires n < |rows| - 1
    ensures Empty(t, rows[n].path) && forall p | p in t.live && p != [] :: Parent(p) != rows[n].path
  {
    var path := rows[n].path;
    forall p | p in t.live && p != [] ensures Parent(p) != path {
      if Parent(p) == path {
        ChildInside(id, p, path);
        var i :| 0 <= i < |rows| && rows[i].path == p;
        ChildEarlier(id, rows, i, n);
      }
    }
  }

  lemma ChildInside(id: Path, p: Path, path: Path)
    requires Parent(p) == path && p != [] && Within(id, path)
    ensures Base(id) + "/" <= p
  {
    var n := LastSlash(p);
    assert n >= 0 && p[..n] == path && p[n] == '/';
    if path == Base(id) {
      assert p[..n + 1] == path + "/";
    } else {
      assert p[..|Base(id)| + 1] == path[..|Base(id)| + 1];
    }
  }

  lemma ChildEarlier(id: Path, rows: seq<Row>, i: nat, n: nat)
    requires Ordered(id, rows) && i < |rows| && n < |rows| && Parent(rows[i].path) == rows[n].path
    requires Base(id) + "/" <= rows[i].path
    ensures i < n
  {
    InsideApart(id, "", "");
    JournalOutside(id);
    assert HeldLater(rows, i);
    var j :| i < j < |rows| && rows[j].path == Parent(rows[i].path) && rows[j].node.Folder?;
  }

  lemma JournalOutside(id: Path)
    ensures !Within(id, JournalPath(id))
  {
    InsideApart(id, "", "");
    assert Base(id) <= Base(id) + "/";
  }

  // ----- the engine -----

  method ReadProgress(p: Progress) returns (ok: bool)
    ensures ok <==> Recognized(p)
  {
    hide IsRows, Selected;
    var rows := Arrange(p.snapshot);
    if rows.None? {
      Unarranged(p.snapshot, p.rows);
      return false;
    }
    RowsMatch(p.snapshot, rows.value, p.rows);
    ok := rows.value == p.rows && p.protect != p.snapshot.id
      && p.next <= |p.rows| && (p.intent ==> p.next < |p.rows|)
      && (p.stage == Finished ==> p.next == |p.rows| && !p.intent);
  }

  lemma Unarranged(s: Snapshot, rows: seq<Row>)
    requires !Selected(s)
    ensures !IsRows(s, rows)
  {
  }

  /** The parts of a recorded removal that hold from the announcement on. */
  ghost predicate Announcing(t: Tree, id: Path, rows: seq<Row>, p: Progress) {
    Together(
      && Sound(t, id, rows) && t.log == [Some(p)] && Recognized(p) && p.rows == rows
      && p.stage == Pruning && p.snapshot.id == id && p.intent && p.next < |rows|)
  }

  lemma AnnouncedFacts(t: Tree, id: Path, rows: seq<Row>, p: Progress)
    requires Announcing(t, id, rows, p)
    ensures p.next < |rows| && Owned(t, rows[p.next])
  {
    hide Recognized, Listed, Classified;
    assert Justified(t.log[0], t, id, rows);
  }

  lemma RemovedAnnouncing(t: Tree, id: Path, rows: seq<Row>, p: Progress)
    requires Announcing(t, id, rows, p) && Distinctly(rows) && rows[p.next].path in t.live
    ensures Announcing(Removed(t, rows[p.next].path), id, rows, p)
  {
    hide Sound, Recognized;
    RemovedSound(t, id, rows, p);
  }

  lemma SyncedAnnouncing(t: Tree, id: Path, rows: seq<Row>, p: Progress, directory: Path)
    requires Announcing(t, id, rows, p)
    ensures Announcing(Synced(t, directory), id, rows, p)
  {
    hide Sound, Recognized;
    SyncedSound(t, id, rows, p, directory);
  }

  lemma AnnouncingSafe(visited: set<Tree>, t: Tree, id: Path, rows: seq<Row>, p: Progress)
    requires Safe(visited, id, rows) && Announcing(t, id, rows, p)
    ensures Safe(visited + {t}, id, rows)
  {
    hide Sound, Recognized;
  }

  lemma AnnouncedEmpty(t: Tree, id: Path, rows: seq<Row>, p: Progress)
    requires Announcing(t, id, rows, p) && Ordered(id, rows)
    ensures rows[p.next].node.Folder? ==> Empty(t, rows[p.next].path)
  {
    hide Recognized, Listed, Classified, Empty;
    assert Justified(t.log[0], t, id, rows);
    if rows[p.next].node.Folder? { NextEmpty(t, id, rows, p.next, true); }
  }

  /** Removes the announced row unless it is gone, and flushes the directory it was in. */
  method RemoveRow(v: Storage, id: Path, rows: seq<Row>, p: Progress, wasIntended: bool)
    returns (s: Outcome, removed: bool)
    requires v.Valid() && Announcing(v.tree, id, rows, p) && Safe(v.visited, id, rows) && Ordered(id, rows)
    modifies v`tree, v`visited, v`faults
    ensures v.Valid() && v.faults >= old(v.faults) && Safe(v.visited, id, rows) && p.next < |rows|
    ensures v.tree.live == old(v.tree).live || v.tree.live == old(v.tree).live - {rows[p.next].path}
    ensures s == Done ==>
      && Announcing(v.tree, id, rows, p) && Absent(v.tree, rows[p.next])
      && v.tree.live == old(v.tree).live - {rows[p.next].path}
      && (removed <==> rows[p.next].path in old(v.tree).live)
    ensures v.faults == old(v.faults) && Parent(rows[p.next].path) in old(v.tree).live ==>
      (wasIntended || rows[p.next].path in old(v.tree).live) ==> s == Done
  {
    hide Announcing, Safe, Ordered, Empty;
    AnnouncedFacts(v.tree, id, rows, p);
    AnnouncedEmpty(v.tree, id, rows, p);
    OrderedDistinct(id, rows);
    s, removed := Failed, false;
    var row := rows[p.next];
    var failed := v.Fails();
    if failed { return; }
    var missing := row.path !in v.tree.live;
    if missing && !wasIntended { return Refused, false; }
    if !missing && v.tree.live[row.path] != row.node { return Refused, false; }
    if Parent(row.path) !in v.tree.live { return; }
    if !missing {
      removed := Unlink(v, id, rows, p);
      if !removed { return; }
    }
    SyncedAnnouncing(v.tree, id, rows, p, Parent(row.path));
    AnnouncingSafe(v.visited, Synced(v.tree, Parent(row.path)), id, rows, p);
    var ok := v.Sync(Parent(row.path));
    if !ok { return; }
    failed := v.Fails();
    if failed { return; }
    s := Done;
  }

  lemma OrderedDistinct(id: Path, rows: seq<Row>)
    requires Ordered(id, rows)
    ensures Distinctly(rows)
  {
    hide Distinctly, HeldLater, Within, Inside, Priority;
  }

  method Unlink(v: Storage, id: Path, rows: seq<Row>, p: Progress) returns (ok: bool)
    requires v.Valid() && Announcing(v.tree, id, rows, p) && Safe(v.visited, id, rows) && p.next < |rows|
    requires Distinctly(rows)
    requires rows[p.next].path in v.tree.live && v.tree.live[rows[p.next].path] == rows[p.next].node
    requires rows[p.next].node.Folder? ==> Empty(v.tree, rows[p.next].path)
    modifies v`tree, v`visited, v`faults
    ensures v.Valid() && v.faults >= old(v.faults) && Safe(v.visited, id, rows) && Announcing(v.tree, id, rows, p)
    ensures v.tree.live == old(v.tree).live || v.tree.live == old(v.tree).live - {rows[p.next].path}
    ensures ok ==> v.tree.live == old(v.tree).live - {rows[p.next].path}
    ensures !ok ==> v.faults > old(v.faults)
  {
    hide Announcing, Safe, Empty;
    RemovedAnnouncing(v.tree, id, rows, p);
    AnnouncingSafe(v.visited, Removed(v.tree, rows[p.next].path), id, rows, p);
    ghost var moved;
    ok, moved := v.Remove(rows[p.next].path);
    if ok {
      var failed := v.Fails();
      ok := !failed;
    }
  }

  /** Nothing appears, and only rows disappear. */
  predicate Confined(before: map<Path, Node>, after: map<Path, Node>, rows: seq<Row>) {
    && after.Keys <= before.Keys
    && forall p | p in before :: if p in after then after[p] == before[p] else Listed(rows, p)
  }

  lemma WithoutConfined(live: map<Path, Node>, rows: seq<Row>, from: nat, to: nat)
    requires from <= to <= |rows|
    ensures Confined(live, Without(live, rows, from, to), rows)
  {
    forall p | p in live && p !in Without(live, rows, from, to) ensures Listed(rows, p) {
      var i :| from <= i < to && rows[i].path == p;
    }
  }

  /** Saved files, not counting the journal, that were there to be removed. */
  datatype Tally = Tally(files: nat, bytes: nat)

  function Freed(live: map<Path, Node>, rows: seq<Row>, from: nat, to: nat): Tally
    requires to <= |rows|
  {
    if to <= from then Tally(0, 0)
    else
      var before, row := Freed(live, rows, from, to - 1), rows[to - 1];
      if row.node.Leaf? && !row.journal && row.path in live
      then Tally(before.files + 1, before.bytes + row.node.image.bytes)
      else before
  }

  /** A removal between two rows: what the progress says is what is on disk. */
  ghost predicate Between(t: Tree, id: Path, rows: seq<Row>, p: Progress) {
    Together(
      && Sound(t, id, rows) && t.log == [Some(p)] && Recognized(p) && p.rows == rows
      && p.stage == Pruning && p.snapshot.id == id)
  }

  lemma BetweenAnnounced(t: Tree, id: Path, rows: seq<Row>, p: Progress)
    requires Between(t, id, rows, p) && p.next < |rows|
    ensures
      var q := p.(intent := true);
      && Sound(Logged(t, q), id, rows) && Sound(Saved(t, q), id, rows) && Announcing(Saved(t, q), id, rows, q)
    ensures p.intent || rows[p.next].path in t.live
  {
    hide Recognized, Classified, Listed, Sound;
    AnnouncedSound(t, id, rows, p);
    NextPresent(t, id, rows, p);
  }

  lemma AnnouncedSound(t: Tree, id: Path, rows: seq<Row>, p: Progress)
    requires Between(t, id, rows, p) && p.next < |rows|
    ensures
      var q := p.(intent := true);
      Sound(Logged(t, q), id, rows) && Sound(Saved(t, q), id, rows) && Recognized(q)
  {
    hide IsRows, Classified, Listed, Justified;
    Announced(t, id, rows, p);
  }

  lemma NextPresent(t: Tree, id: Path, rows: seq<Row>, p: Progress)
    requires Between(t, id, rows, p) && p.next < |rows|
    ensures p.intent || rows[p.next].path in t.live
  {
    hide Recognized, Classified, Listed;
    assert Justified(t.log[0], t, id, rows);
  }

  lemma AnnouncedAdvanced(t: Tree, id: Path, rows: seq<Row>, p: Progress)
    requires Announcing(t, id, rows, p) && p.next < |rows| && Absent(t, rows[p.next])
    ensures
      var q := p.(next := p.next + 1, intent := false);
      && Sound(Logged(t, q), id, rows) && Sound(Saved(t, q), id, rows) && Between(Saved(t, q), id, rows, q)
  {
    hide IsRows, Classified, Listed, Justified;
    Advanced(t, id, rows, p);
  }

  lemma SafeTwo(visited: set<Tree>, a: Tree, b: Tree, id: Path, rows: seq<Row>)
    requires Safe(visited, id, rows) && Sound(a, id, rows) && Sound(b, id, rows)
    ensures forall more | visited <= more <= visited + {a, b} :: Safe(more, id, rows)
  {
    hide Sound;
  }

  /** Every directory a row needs is there until its own turn comes. */
  lemma ParentPresent(t: Tree, id: Path, rows: seq<Row>, p: Progress)
    requires Between(t, id, rows, p) && Ordered(id, rows) && p.next < |rows| - 1 && rows[p.next].path != Base(id)
    ensures Parent(rows[p.next].path) in t.live
  {
    hide Recognized, Classified, Listed, Within, Inside, Distinctly;
    assert Justified(t.log[0], t, id, rows);
    assert HeldLater(rows, p.next);
    var j :| p.next < j < |rows| && rows[j].path == Parent(rows[p.next].path) && rows[j].node.Folder?;
    assert Present(t, rows[j]);
  }

  /** The directories around the set: they hold the base and the journal. */
  predicate Housed(live: map<Path, Node>, id: Path, rows: seq<Row>) {
    && Parent(Base(id)) in live && Parent(JournalPath(id)) in live
    && !Listed(rows, Parent(Base(id))) && !Listed(rows, Parent(JournalPath(id)))
  }

  lemma HousedParent(t: Tree, before: map<Path, Node>, id: Path, rows: seq<Row>, p: Progress)
    requires Between(t, id, rows, p) && Ordered(id, rows) && p.next < |rows|
    requires Housed(before, id, rows) && Confined(before, t.live, rows)
    ensures Parent(rows[p.next].path) in t.live
  {
    hide Between, Within, Inside, Distinctly, HeldLater, Listed;
    var path := rows[p.next].path;
    if p.next < |rows| - 1 && path != Base(id) {
      ParentPresent(t, id, rows, p);
    }
  }

  /** One step of the loop: announce, remove, record. */
  method PruneNext(v: Storage, id: Path, rows: seq<Row>, p: Progress, ghost before: map<Path, Node>)
    returns (s: Outcome, removed: bool, p': Progress)
    requires v.Valid() && Between(v.tree, id, rows, p) && Safe(v.visited, id, rows) && Ordered(id, rows)
    requires p.next < |rows|
    modifies v`tree, v`visited, v`faults
    ensures v.Valid() && v.faults >= old(v.faults) && Safe(v.visited, id, rows)
    ensures v.tree.live == old(v.tree).live || v.tree.live == old(v.tree).live - {rows[p.next].path}
    ensures s == Done ==>
      && p' == p.(next := p.next + 1, intent := false) && Between(v.tree, id, rows, p')
      && v.tree.live == old(v.tree).live - {rows[p.next].path}
      && (removed <==> rows[p.next].path in old(v.tree).live)
    ensures v.faults == old(v.faults) && Housed(before, id, rows) && Confined(before, old(v.tree).live, rows) ==>
      s == Done
  {
    hide Between, Announcing, Safe, Ordered, Sound, Housed, Confined, Recognized;
    s, removed, p' := Failed, false, p;
    var wasIntended := p.intent;
    var q := p.(intent := true);
    BetweenAnnounced(v.tree, id, rows, p);
    SafeTwo(v.visited, Logged(v.tree, q), Saved(v.tree, q), id, rows);
    if Housed(before, id, rows) && Confined(before, v.tree.live, rows) { HousedParent(v.tree, before, id, rows, p); }
    var ok := v.Save(q);
    if !ok { return; }
    s, removed := RemoveRow(v, id, rows, q, wasIntended);
    if s != Done { return; }
    p' := q.(next := q.next + 1, intent := false);
    AnnouncedAdvanced(v.tree, id, rows, q);
    SafeTwo(v.visited, Logged(v.tree, p'), Saved(v.tree, p'), id, rows);
    ok := v.Save(p');
    if !ok { s := Failed; }
  }

  /** The cleanup is durably complete. */
  predicate Cleared(t: Tree, rows: seq<Row>, protect: Path) {
    && |t.log| == 1 && t.log[0].Some? && t.log[0].value.stage == Finished && t.log[0].value.protect == protect
    && forall i | 0 <= i < |rows| :: Absent(t, rows[i])
  }

  /** Removes every remaining row in order. Whatever fails, every moment stays
      recoverable and nothing but rows is touched; without a failure all rows are
      durably gone. */
  method PruneRows(v: Storage, id: Path, rows: seq<Row>, start: Progress)
    returns (tally: Tally, s: Outcome)
    requires v.Valid() && Between(v.tree, id, rows, start) && Safe(v.visited, id, rows) && Ordered(id, rows)
    modifies v`tree, v`visited, v`faults
    ensures v.Valid() && v.faults >= old(v.faults) && Safe(v.visited, id, rows)
    ensures Confined(old(v.tree).live, v.tree.live, rows)
    ensures s == Done ==> Cleared(v.tree, rows, start.protect)
    ensures s == Done ==> start.next <= |rows| && tally == Freed(old(v.tree).live, rows, start.next, |rows|)
    ensures v.faults == old(v.faults) && Housed(old(v.tree).live, id, rows) ==> s == Done
  {
    hide Between, Safe, Ordered, Sound, Housed, Absent, Listed, Recognized;
    ghost var live := v.tree.live;
    var p := start;
    tally, s := Tally(0, 0), Done;
    BetweenBounds(v.tree, id, rows, p);
    while p.next < |rows|
      invariant start.next <= p.next <= |rows| && s == Done
      invariant v.Valid() && v.faults >= old(v.faults)
      invariant Safe(v.visited, id, rows) && Between(v.tree, id, rows, p)
      invariant v.tree.live == Without(live, rows, start.next, p.next) && p.protect == start.protect
      invariant tally == Freed(live, rows, start.next, p.next)
      decreases |rows| - p.next
    {
      WithoutConfined(live, rows, start.next, p.next);
      WithoutOne(live, rows, start.next, p.next);
      WithoutConfined(live, rows, start.next, p.next + 1);
      StillThere(live, id, rows, start.next, p.next);
      var row, removed, p' := rows[p.next], false, p;
      s, removed, p' := PruneNext(v, id, rows, p, live);
      if s != Done { return; }
      if removed && row.node.Leaf? && !row.journal {
        tally := Tally(tally.files + 1, tally.bytes + row.node.image.bytes);
      }
      p := p';
    }
    WithoutConfined(live, rows, start.next, p.next);
    FinishedSound(v.tree, id, rows, p);
    var q := p.(stage := Finished);
    SafeTwo(v.visited, Logged(v.tree, q), Saved(v.tree, q), id, rows);
    var ok := v.Save(q);
    if !ok { s := Failed; }
  }

  lemma BetweenBounds(t: Tree, id: Path, rows: seq<Row>, p: Progress)
    requires Between(t, id, rows, p)
    ensures p.next <= |rows|
  {
    hide IsRows, Sound;
  }

  lemma StillThere(live: map<Path, Node>, id: Path, rows: seq<Row>, from: nat, n: nat)
    requires Ordered(id, rows) && from <= n < |rows|
    ensures rows[n].path in Without(live, rows, from, n) <==> rows[n].path in live
  {
    hide Within, Inside, HeldLater;
  }

  lemma FinishedSound(t: Tree, id: Path, rows: seq<Row>, p: Progress)
    requires Between(t, id, rows, p) && p.next == |rows|
    ensures
      var q := p.(stage := Finished);
      && Sound(Logged(t, q), id, rows) && Sound(Saved(t, q), id, rows)
      && forall i | 0 <= i < |rows| :: Absent(Saved(t, q), rows[i])
  {
    hide IsRows, Classified, Listed, Justified;
    Completed(t, id, rows, p);
  }

  // ----- starting and resuming -----

  predicate Resumes(v: Option<Progress>, id: Path) {
    v.Some? && v.value.stage == Pruning && v.value.snapshot.id == id
  }

  function Current(t: Tree): Option<Progress>
    requires t.log != []
  {
    t.log[|t.log| - 1]
  }

  /** Runs or resumes one cleanup. Only rows are removed, every crash leaves evidence
      from which the cleanup can be resumed, and without a failure it is completed
      unless the selection or the recorded progress is refused. */
  method ExecutePrune(v: Storage, snapshot: Snapshot, protect: Path, ghost rows: seq<Row>)
    returns (tally: Tally, s: Outcome)
    requires v.Valid() && (Selected(snapshot) ==> IsRows(snapshot, rows) && Safe(v.visited, snapshot.id, rows))
    requires Resumes(Current(v.tree), snapshot.id) || Untouched(v.tree, rows)
    modifies v`tree, v`visited, v`faults
    ensures v.Valid() && v.faults >= old(v.faults) && Confined(old(v.tree).live, v.tree.live, rows)
    ensures Selected(snapshot) ==> Safe(v.visited, snapshot.id, rows)
    ensures s == Done ==> Cleared(v.tree, rows, protect)
    ensures v.faults == old(v.faults) && Housed(old(v.tree).live, snapshot.id, rows) ==>
      (s == Done <==> Startable(snapshot, protect, Current(old(v.tree))))
  {
    hide IsRows, Safe, Sound, Selected, Housed, Recognized, Untouched, Cleared, Between;
    tally, s := Tally(0, 0), Refused;
    SameConfined(v.tree.live, rows);
    var arranged := Arrange(snapshot);
    if arranged.None? { return; }
    RowsMatch(snapshot, arranged.value, rows);
    if protect == snapshot.id { return; }
    var failed := v.Fails();
    if failed { s := Failed; return; }
    var current := Current(v.tree);
    var progress := Progress(snapshot, protect, arranged.value, 0, false, Pruning);
    if current.Some? {
      var ok := ReadProgress(current.value);
      if !ok { return; }
      if current.value.stage == Pruning {
        if current.value.snapshot.id != snapshot.id { return; }
        progress := current.value.(protect := protect);
      }
    }
    StartSound(v.visited, v.tree, snapshot, protect, rows, progress);
    var ok := v.Save(progress);
    if !ok { s := Failed; return; }
    tally, s := PruneRows(v, snapshot.id, arranged.value, progress);
  }

  lemma SameConfined(live: map<Path, Node>, rows: seq<Row>)
    ensures Confined(live, live, rows)
  {
  }

  /** The first record of a run covers what is there. */
  lemma StartSound(visited: set<Tree>, t: Tree, snapshot: Snapshot, protect: Path, rows: seq<Row>, p: Progress)
    requires Safe(visited, snapshot.id, rows) && t in visited && IsRows(snapshot, rows) && protect != snapshot.id
    requires t.log != [] && (Resumes(Current(t), snapshot.id) || Untouched(t, rows))
    requires p == if Resumes(Current(t), snapshot.id) then Current(t).value.(protect := protect)
      else Progress(snapshot, protect, rows, 0, false, Pruning)
    ensures Ordered(snapshot.id, rows)
    ensures Sound(Saved(t, p), snapshot.id, rows) && Between(Saved(t, p), snapshot.id, rows, p)
    ensures forall more | visited <= more <= visited + {Logged(t, p), Saved(t, p)} :: Safe(more, snapshot.id, rows)
  {
    hide IsRows, Ordered, Classified, Listed;
    RowsOrdered(snapshot, rows);
    StartJustified(t, snapshot, protect, rows, p);
    ResavedSound(t, snapshot.id, rows, p);
    SafeTwo(visited, Logged(t, p), Saved(t, p), snapshot.id, rows);
  }

  lemma StartJustified(t: Tree, snapshot: Snapshot, protect: Path, rows: seq<Row>, p: Progress)
    requires Sound(t, snapshot.id, rows) && IsRows(snapshot, rows) && protect != snapshot.id
    requires Resumes(Current(t), snapshot.id) || Untouched(t, rows)
    requires p == if Resumes(Current(t), snapshot.id) then Current(t).value.(protect := protect)
      else Progress(snapshot, protect, rows, 0, false, Pruning)
    ensures Justified(Some(p), t, snapshot.id, rows) && Recognized(p) && p.rows == rows
    ensures p.stage == Pruning && p.snapshot.id == snapshot.id && p.protect == protect
  {
    hide IsRows, Classified, Listed;
    assert Justified(Current(t), t, snapshot.id, rows);
  }

  /** The engine's own refusals. */
  ghost predicate Startable(snapshot: Snapshot, protect: Path, current: Option<Progress>) {
    && Selected(snapshot) && protect != snapshot.id
    && (current.None? || Recognized(current.value))
    && (current.Some? && current.value.stage == Pruning ==> current.value.snapshot.id == snapshot.id)
  }
}
