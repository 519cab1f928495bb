/**
 The promotion script: install the staged configuration of the lost leader over
 this node's own, while its home is stopped.

 The script always promotes, so the degraded marker is its only way to say that
 something went wrong. Every external command that may fail is an oracle in
 `World`; renames and removals succeed, except the rename of a directory onto a
 file, which cannot.
 */
module Swap {
  import opened Sequences
  import opened Wrappers
  import opened Identity

  type Name = string

  datatype Owner = Owner(uid: nat, gid: nat)

  const ROOT := Owner(0, 0)

  /** A file, or a directory with its files and, apart, its config-entries store. */
  datatype Item = File(text: string, owner: Owner) | Folder(files: map<string, string>, store: Store, owner: Owner)

  type Tree = map<Name, Item>

  const STORAGE: Name := ".storage"
  const REJECTED: Name := ".storage.rejected"

  function New(n: Name): Name { n + ".new" }
  function Previous(n: Name): Name { n + ".previous" }

  datatype Reason =
    | VerifyFailed | NoStagedFileset | IdentityRestoreFailed | SwapFailed
    | NoLocalIdentity | OwnershipRestoreFailed | Stale(age: int)

  /** `Aborted` is the shell stopping on an unset variable, exit status 1. */
  datatype Exit = Zero | Aborted

  /** `order` lists the staged entries as `ls` does. `torn` is what a failing copy
      leaves behind, where it leaves anything. */
  datatype World = World(
    containerRunning: bool,
    verifyFailed: bool,
    stagedDirectory: bool,
    statusFile: bool,
    staged: Tree,
    order: seq<Name>,
    age: int,
    staleAfter: int,
    configOwner: Option<Owner>,
    unstatable: set<Name>,
    mktempFails: bool,
    captureFails: bool,
    restoreFails: bool,
    copyFails: set<Name>,
    torn: Tree,
    chownFails: set<Name>)

  predicate Listed(w: World) {
    && (set n | n in w.order) == w.staged.Keys
    && NoDuplicates(w.order)
  }

  lemma ListedExactly(w: World)
    requires Listed(w)
    ensures forall n :: n in w.order <==> n in w.staged
  {
    assert forall n :: n in w.order <==> n in set m | m in w.order;
  }

  // ------------------------------------------------------------- specification

  /** The script's variables; `reasons` are all the reasons it ever tried to mark. */
  datatype Run = Run(tree: Tree, marker: Option<Reason>, reasons: seq<Reason>, failed: bool)

  /** First reason wins, for this run. */
  function Marked(r: Run, why: Reason): Run {
    r.(marker := if r.reasons == [] then Some(why) else r.marker, reasons := r.reasons + [why])
  }

  function FailedBy(r: Run, why: Reason): Run {
    Marked(r, why).(failed := true)
  }

  /** The owner to give `n`: the one it had, or that of the configuration itself. */
  function OwnerOf(t: Tree, n: Name, w: World): Option<Owner> {
    if n in t && n !in w.unstatable then Some(t[n].owner) else w.configOwner
  }

  predicate StagedFolder(w: World, n: Name) { n in w.staged && w.staged[n].Folder? }

  predicate StagedFile(w: World, n: Name) { n in w.staged && w.staged[n].File? }

  function OwnedBy(item: Item, owner: Option<Owner>): Item {
    if owner.Some? then item.(owner := owner.value) else item
  }

  function SwapDir(t: Tree, n: Name, w: World): (Tree, bool) {
    if !StagedFolder(w, n) then (t, true)
    else
      var cleared := t - {New(n), Previous(n)};
      if n in w.copyFails then (if n in w.torn then cleared[New(n) := w.torn[n]] else cleared, false)
      else
        var copied := cleared[New(n) := w.staged[n]];
        if n in copied && copied[n].File? then (copied, false)
        else
          var moved := if n in copied then (copied - {n})[Previous(n) := copied[n]] else copied;
          ((moved - {New(n)})[n := w.staged[n]], true)
  }

  /** A file put at `n`; onto a directory it goes inside. */
  function Put(t: Tree, n: Name, item: Item): Tree {
    if n in t && t[n].Folder? then (if item.File? then t[n := t[n].(files := t[n].files[n := item.text])] else t)
    else t[n := item]
  }

  function CopyFile(t: Tree, n: Name, w: World): (Tree, bool)
    requires StagedFile(w, n)
  {
    if n !in w.copyFails then (Put(t, n, w.staged[n]), true)
    else (if n in w.torn then Put(t, n, w.torn[n]) else t, false)
  }

  function Chown(r: Run, n: Name, w: World, owner: Option<Owner>): Run {
    if owner == None || n !in r.tree then r
    else if n in w.chownFails then FailedBy(r, OwnershipRestoreFailed)
    else r.(tree := r.tree[n := r.tree[n].(owner := owner.value)])
  }

  /** `t0` is the tree the owners were read from. */
  function InstallDir(r: Run, n: Name, w: World, t0: Tree): Run {
    if !StagedFolder(w, n) || n == STORAGE then r
    else
      var (t, ok) := SwapDir(r.tree, n, w);
      if ok then Chown(r.(tree := t), n, w, OwnerOf(t0, n, w)) else FailedBy(r.(tree := t), SwapFailed)
  }

  function InstallFile(r: Run, n: Name, w: World, t0: Tree): Run {
    if !StagedFile(w, n) then r
    else
      var (t, ok) := CopyFile(r.tree, n, w);
      if ok then Chown(r.(tree := t), n, w, OwnerOf(t0, n, w)) else FailedBy(r.(tree := t), SwapFailed)
  }

  function InstallDirs(r: Run, order: seq<Name>, w: World, t0: Tree): Run {
    if order == [] then r else InstallDir(InstallDirs(r, order[..|order| - 1], w, t0), order[|order| - 1], w, t0)
  }

  function InstallFiles(r: Run, order: seq<Name>, w: World, t0: Tree): Run {
    if order == [] then r else InstallFile(InstallFiles(r, order[..|order| - 1], w, t0), order[|order| - 1], w, t0)
  }

  function StoreIn(t: Tree): Store {
    if STORAGE in t && t[STORAGE].Folder? then t[STORAGE].store else Missing
  }

  function Captured(t: Tree, w: World): Option<seq<Entry>> {
    if w.mktempFails || w.captureFails then None else Capture(StoreIn(t))
  }

  /** The tool replaces the store atomically, leaving it to root. */
  function RestoreIdentity(t: Tree, captured: seq<Entry>, w: World): (Tree, ExitCode) {
    var (store, rc) := RestoreTool(StoreIn(t), captured);
    if w.restoreFails || rc == Failed1 || !(STORAGE in t && t[STORAGE].Folder?) then (t, Failed1)
    else (t[STORAGE := t[STORAGE].(store := store, owner := ROOT)], rc)
  }

  function Rollback(t: Tree): Tree {
    var aside := if STORAGE in t then (t - {REJECTED, STORAGE})[REJECTED := t[STORAGE]] else t - {REJECTED};
    if Previous(STORAGE) in aside && aside[Previous(STORAGE)].Folder?
    then (aside - {Previous(STORAGE)})[STORAGE := aside[Previous(STORAGE)]]
    else aside
  }

  /** The reason not to start, if there is one. */
  function Refused(t: Tree, w: World): Option<Reason> {
    if w.verifyFailed then Some(VerifyFailed)
    else if !w.stagedDirectory || !w.statusFile then Some(NoStagedFileset)
    else if Captured(t, w) == None then Some(IdentityRestoreFailed)
    else None
  }

  /** From the ownership of the identity-restored storage to the end. */
  function Finish(r: Run, w: World, t0: Tree): Run {
    var owned := Chown(r, STORAGE, w, OwnerOf(t0, STORAGE, w));
    var done := InstallFiles(InstallDirs(owned, w.order, w, t0), w.order, w, t0);
    if done.failed then done
    else if w.age > w.staleAfter then Marked(done, Stale(w.age))
    else done.(marker := None)
  }

  /** The run once the identity is back: with or without entries of its own. */
  function Restored(r: Run, restored: Tree, rc: ExitCode): Run {
    var r' := r.(tree := restored);
    if rc == NoLocalIdentity2 then FailedBy(r', NoLocalIdentity) else r'
  }

  function Script(t0: Tree, marker: Option<Reason>, w: World): (Run, Exit) {
    var r := Run(t0, marker, [], false);
    if w.containerRunning then (r, Zero)
    else if Refused(t0, w) != None then (Marked(r, Refused(t0, w).value), Zero)
    else
      var (swapped, ok) := SwapDir(t0, STORAGE, w);
      if !ok then (Marked(r.(tree := swapped), SwapFailed), Zero)
      else
        var (restored, rc) := RestoreIdentity(swapped, Captured(t0, w).value, w);
        if rc == Failed1 then (Marked(r.(tree := Rollback(restored)), IdentityRestoreFailed), Zero)
        else
          var r' := Restored(r, restored, rc);
          if STORAGE !in w.staged then (r', Aborted) else (Finish(r', w, t0), Zero)
  }

  // ---------------------------------------------------------- names and frames

  /** The names an installation of `n` may change. */
  function Touched(n: Name): set<Name> { {n, New(n), Previous(n)} }

  lemma Suffixes(m: Name)
    ensures New(m) != m && Previous(m) != m && New(m) != Previous(m)
    ensures New(m) != STORAGE && Previous(m) != STORAGE && REJECTED != STORAGE && Previous(STORAGE) != REJECTED
  {
    assert |New(m)| == |m| + 4 && |Previous(m)| == |m| + 9;
    assert New(m)[|New(m)| - 1] == 'w' && Previous(m)[|Previous(m)| - 1] == 's';
    assert STORAGE[|STORAGE| - 1] == 'e';
    assert REJECTED[9] == 'r' && Previous(STORAGE)[9] == 'p';
  }

  lemma SuffixesAreInjective(m: Name, n: Name)
    requires m != n
    ensures Previous(m) != Previous(n) && Previous(m) != New(n)
  {
    assert Previous(m)[..|m|] == m && Previous(n)[..|n|] == n;
    assert |Previous(m)| == |m| + 9 && |Previous(n)| == |n| + 9;
    assert New(n)[|New(n)| - 1] == 'w' && Previous(m)[|Previous(m)| - 1] == 's';
  }

  predicate AgreeAt(a: Tree, b: Tree, x: Name) {
    (x in a <==> x in b) && (x in a ==> a[x] == b[x])
  }

  lemma InstallDirFrame(r: Run, n: Name, w: World, t0: Tree, x: Name)
    requires x !in Touched(n)
    ensures AgreeAt(InstallDir(r, n, w, t0).tree, r.tree, x)
  {
  }

  lemma {:induction false} InstallDirsFrame(r: Run, order: seq<Name>, w: World, t0: Tree, x: Name)
    requires forall n :: n in order && StagedFolder(w, n) && n != STORAGE ==> x !in Touched(n)
    ensures AgreeAt(InstallDirs(r, order, w, t0).tree, r.tree, x)
  {
    if order != [] {
      var front := order[..|order| - 1];
      InstallDirsFrame(r, front, w, t0, x);
      var n := order[|order| - 1];
      assert n in order;
      if StagedFolder(w, n) && n != STORAGE {
        InstallDirFrame(InstallDirs(r, front, w, t0), n, w, t0, x);
      }
    }
  }

  lemma InstallFileFrame(r: Run, n: Name, w: World, t0: Tree, x: Name)
    requires x != n || !StagedFile(w, n)
    ensures AgreeAt(InstallFile(r, n, w, t0).tree, r.tree, x)
  {
  }

  lemma {:induction false} InstallFilesFrame(r: Run, order: seq<Name>, w: World, t0: Tree, x: Name)
    requires x !in order || !StagedFile(w, x)
    ensures AgreeAt(InstallFiles(r, order, w, t0).tree, r.tree, x)
  {
    if order != [] {
      var front, n := order[..|order| - 1], order[|order| - 1];
      assert n in order && forall y :: y in front ==> y in order;
      InstallFilesFrame(r, front, w, t0, x);
      InstallFileFrame(InstallFiles(r, front, w, t0), n, w, t0, x);
    }
  }

  // --------------------------------------------------------------- the marker

  /** Reasons are only ever added, and the marker holds the first of them. */
  predicate Extends(later: Run, earlier: Run) {
    && earlier.reasons <= later.reasons
    && (later.reasons == [] ==> later.marker == earlier.marker)
    && (earlier.reasons != [] ==> later.marker == earlier.marker)
    && (earlier.reasons == [] && later.reasons != [] ==> later.marker == Some(later.reasons[0]))
    && ((earlier.failed ==> earlier.reasons != []) ==> (later.failed ==> later.reasons != []))
    && (later.failed <==> earlier.failed || earlier.reasons != later.reasons)
  }

  lemma ExtendsTransitive(a: Run, b: Run, c: Run)
    requires Extends(b, a) && Extends(c, b)
    ensures Extends(c, a)
  {
  }

  lemma InstallsExtend(r: Run, n: Name, w: World, t0: Tree)
    ensures Extends(InstallDir(r, n, w, t0), r) && Extends(InstallFile(r, n, w, t0), r)
  {
  }

  lemma {:induction false} LoopsExtend(r: Run, order: seq<Name>, w: World, t0: Tree)
    ensures Extends(InstallDirs(r, order, w, t0), r) && Extends(InstallFiles(r, order, w, t0), r)
  {
    if order != [] {
      var front, n := order[..|order| - 1], order[|order| - 1];
      LoopsExtend(r, front, w, t0);
      var dirs, files := InstallDirs(r, front, w, t0), InstallFiles(r, front, w, t0);
      InstallsExtend(dirs, n, w, t0);
      InstallsExtend(files, n, w, t0);
      ExtendsTransitive(r, dirs, InstallDir(dirs, n, w, t0));
      ExtendsTransitive(r, files, InstallFile(files, n, w, t0));
    }
  }

  /** The last stretch: what it marks, and when it clears the marker. */
  lemma FinishMarks(r: Run, w: World, t0: Tree)
    requires r.failed <==> r.reasons != []
    ensures var f := Finish(r, w, t0);
            && r.reasons <= f.reasons
            && f.marker == if r.reasons != [] then r.marker else if f.reasons != [] then Some(f.reasons[0]) else None
  {
    var owned := Chown(r, STORAGE, w, OwnerOf(t0, STORAGE, w));
    var dirs := InstallDirs(owned, w.order, w, t0);
    LoopsExtend(owned, w.order, w, t0);
    LoopsExtend(dirs, w.order, w, t0);
    ExtendsTransitive(r, owned, dirs);
    ExtendsTransitive(r, dirs, InstallFiles(dirs, w.order, w, t0));
  }

  /** The marker afterwards is the first reason of this run; with no reason at all
      it is gone, unless the script never got past its checks: the container was
      running (that branch marks nothing), or the shell aborted. */
  lemma MarkerIsTheFirstReason(t0: Tree, marker: Option<Reason>, w: World)
    ensures var (r, exit) := Script(t0, marker, w);
            r.marker == if r.reasons != [] then Some(r.reasons[0])
                        else if w.containerRunning || exit == Aborted then marker else None
    ensures var (r, exit) := Script(t0, marker, w);
            !w.containerRunning && Refused(t0, w).Some? ==> r.reasons == [Refused(t0, w).value] && r.tree == t0
    ensures w.containerRunning ==> Script(t0, marker, w) == (Run(t0, marker, [], false), Zero)
  {
    if !w.containerRunning && Refused(t0, w) == None && STORAGE in w.staged {
      var r := Run(t0, marker, [], false);
      var (swapped, ok) := SwapDir(t0, STORAGE, w);
      if ok {
        var (restored, rc) := RestoreIdentity(swapped, Captured(t0, w).value, w);
        if rc != Failed1 {
          FinishMarks(Restored(r, restored, rc), w, t0);
        }
      }
    }
  }

  // ------------------------------------------------------- the storage is safe

  /** The staged storage with this node's own identity grafted in. */
  predicate Grafted(item: Item, t0: Tree, w: World) {
    && Captured(t0, w).Some? && StagedFolder(w, STORAGE) && item.Folder?
    && item.files == w.staged[STORAGE].files
    && var (store, rc) := RestoreTool(w.staged[STORAGE].store, Captured(t0, w).value);
    && rc != Failed1 && item.store == store
  }

  /** The same files, and the same entries of every integration in the store: at most
      the tool has rewritten it. */
  predicate OwnTree(item: Item, own: Item) {
    item.Folder? && own.Folder? && item.files == own.files && SameContents(item.store, own.store)
  }

  /** What the script may leave as the storage: what was there -- nothing, if nothing
      was -- or the grafted one. */
  predicate UntouchedOrGrafted(t: Tree, t0: Tree, w: World) {
    AgreeAt(t, t0, STORAGE) || (STORAGE in t && Grafted(t[STORAGE], t0, w))
  }

  /** Or what was there, rewritten by the tool without loss. */
  predicate SafeStorage(t: Tree, t0: Tree, w: World) {
    UntouchedOrGrafted(t, t0, w) || (STORAGE in t && STORAGE in t0 && OwnTree(t[STORAGE], t0[STORAGE]))
  }

  lemma FinishKeepsStorage(r: Run, w: World, t0: Tree)
    requires StagedFolder(w, STORAGE) && STORAGE in r.tree
    ensures var t := Finish(r, w, t0).tree;
            STORAGE in t && t[STORAGE] == if STORAGE in w.chownFails then r.tree[STORAGE]
                                          else OwnedBy(r.tree[STORAGE], OwnerOf(t0, STORAGE, w))
  {
    forall n | n in w.order && n != STORAGE
      ensures STORAGE !in Touched(n)
    {
      Suffixes(n);
    }
    var owned := Chown(r, STORAGE, w, OwnerOf(t0, STORAGE, w));
    InstallDirsFrame(owned, w.order, w, t0, STORAGE);
    InstallFilesFrame(InstallDirs(owned, w.order, w, t0), w.order, w, t0, STORAGE);
  }

  lemma SwapDirAt(t: Tree, n: Name, w: World)
    requires StagedFolder(w, n)
    ensures var (t', ok) := SwapDir(t, n, w);
            && (ok <==> n !in w.copyFails && !(n in t && t[n].File?))
            && (if ok then n in t' && t'[n] == w.staged[n] else AgreeAt(t', t, n))
            && (ok ==> if n in t then Previous(n) in t' && t'[Previous(n)] == t[n] else Previous(n) !in t')
            && (forall x :: x !in Touched(n) ==> AgreeAt(t', t, x))
  {
    Suffixes(n);
  }

  lemma RollbackAt(t: Tree)
    ensures var back := Previous(STORAGE) in t && t[Previous(STORAGE)].Folder?;
            if back then STORAGE in Rollback(t) && Rollback(t)[STORAGE] == t[Previous(STORAGE)]
            else STORAGE !in Rollback(t)
  {
    Suffixes(STORAGE);
  }

  /** Promotion never installs the peer's identity: whatever fails, at every exit the
      storage is exactly what it was, or the staged one with this node's identity in it. */
  lemma StorageIsSafe(t0: Tree, marker: Option<Reason>, w: World)
    requires StagedFolder(w, STORAGE)
    ensures UntouchedOrGrafted(Script(t0, marker, w).0.tree, t0, w)
    ensures Script(t0, marker, w).1 == Zero
  {
    if !w.containerRunning && Refused(t0, w) == None {
      var r := Run(t0, marker, [], false);
      var (swapped, ok) := SwapDir(t0, STORAGE, w);
      SwapDirAt(t0, STORAGE, w);
      if ok {
        var (restored, rc) := RestoreIdentity(swapped, Captured(t0, w).value, w);
        if rc == Failed1 {
          RollbackAt(restored);
        } else {
          var r' := Restored(r, restored, rc);
          FinishKeepsStorage(r', w, t0);
        }
      }
    }
  }

  /** So the entries this node leads with afterwards are the ones it had before. */
  lemma NeverThePeersIdentity(t0: Tree, marker: Option<Reason>, w: World)
    requires StagedFolder(w, STORAGE)
    ensures var t := Script(t0, marker, w).0.tree;
            SameIdentities(StoreIn(t), StoreIn(t0))
  {
    StorageIsSafe(t0, marker, w);
    var t := Script(t0, marker, w).0.tree;
    if STORAGE in t && Grafted(t[STORAGE], t0, w) {
      RestoreKeepsIdentity(StoreIn(t0), w.staged[STORAGE].store);
    }
  }

  /** The files of the storage once a staged *file* of its name has landed in it. */
  function Landed(files: map<string, string>, w: World): map<string, string> {
    if !StagedFile(w, STORAGE) then files
    else if STORAGE !in w.copyFails then files[STORAGE := w.staged[STORAGE].text]
    else if STORAGE in w.torn && w.torn[STORAGE].File? then files[STORAGE := w.torn[STORAGE].text]
    else files
  }

  /** The storage as a loop over the top-level files leaves it. */
  predicate KeepsTheStore(t: Tree, before: Tree, w: World, reached: bool)
    requires STORAGE in before && before[STORAGE].Folder?
  {
    && STORAGE in t && t[STORAGE].Folder? && t[STORAGE].store == before[STORAGE].store
    && t[STORAGE].files == if reached then Landed(before[STORAGE].files, w) else before[STORAGE].files
  }

  lemma FileKeepsTheStore(r: Run, n: Name, w: World, t0: Tree)
    requires STORAGE in r.tree && r.tree[STORAGE].Folder?
    ensures KeepsTheStore(InstallFile(r, n, w, t0).tree, r.tree, w, n == STORAGE)
  {
  }

  lemma {:induction false} FilesKeepTheStore(r: Run, order: seq<Name>, w: World, t0: Tree)
    requires STORAGE in r.tree && r.tree[STORAGE].Folder?
    ensures KeepsTheStore(InstallFiles(r, order, w, t0).tree, r.tree, w, STORAGE in order)
  {
    if order != [] {
      var front, n := order[..|order| - 1], order[|order| - 1];
      assert order == front + [n];
      FilesKeepTheStore(r, front, w, t0);
      FileKeepsTheStore(InstallFiles(r, front, w, t0), n, w, t0);
    }
  }

  lemma FinishKeepsTheStore(r: Run, w: World, t0: Tree)
    requires STORAGE in r.tree && r.tree[STORAGE].Folder?
    ensures KeepsTheStore(Finish(r, w, t0).tree, r.tree, w, STORAGE in w.order)
  {
    forall n | n in w.order && n != STORAGE
      ensures STORAGE !in Touched(n)
    {
      Suffixes(n);
    }
    var owned := Chown(r, STORAGE, w, OwnerOf(t0, STORAGE, w));
    InstallDirsFrame(owned, w.order, w, t0, STORAGE);
    FilesKeepTheStore(InstallDirs(owned, w.order, w, t0), w.order, w, t0);
  }

  /** The tool can put this node's own entries back into its own store. */
  predicate Restorable(t0: Tree, w: World) {
    !w.restoreFails && StoreIn(t0).Entries?
  }

  /** There is an earlier promotion's `.previous` to fall back on. */
  predicate HasPrevious(t0: Tree) {
    Previous(STORAGE) in t0 && t0[Previous(STORAGE)].Folder?
  }

  /** Where the tool can restore the live store, the node's own tree is what stays --
      with a staged file of the storage's name landed inside it, if there is one. */
  lemma OwnTreeStays(t0: Tree, marker: Option<Reason>, w: World)
    requires !StagedFolder(w, STORAGE) && !w.containerRunning && Refused(t0, w) == None
    requires Restorable(t0, w)
    ensures var (r, exit) := Script(t0, marker, w);
            && STORAGE in r.tree && r.tree[STORAGE].Folder?
            && SameContents(r.tree[STORAGE].store, t0[STORAGE].store)
            && r.tree[STORAGE].files ==
                 (if STORAGE in w.order then Landed(t0[STORAGE].files, w) else t0[STORAGE].files)
            && (exit == Aborted <==> STORAGE !in w.staged)
  {
    RestoreOntoItself(StoreIn(t0));
    var (restored, rc) := RestoreIdentity(t0, Captured(t0, w).value, w);
    if STORAGE in w.staged {
      FinishKeepsTheStore(Restored(Run(t0, marker, [], false), restored, rc), w, t0);
    }
  }

  /** Where it cannot, the live storage is set aside all the same, and whatever an
      earlier promotion left as `.previous` takes its place, or nothing does. */
  lemma OwnTreeIsSetAside(t0: Tree, marker: Option<Reason>, w: World)
    requires !StagedFolder(w, STORAGE) && !w.containerRunning && Refused(t0, w) == None
    requires !Restorable(t0, w)
    ensures var (r, exit) := Script(t0, marker, w);
            && exit == Zero
            && (if HasPrevious(t0) then STORAGE in r.tree && r.tree[STORAGE] == t0[Previous(STORAGE)]
                else STORAGE !in r.tree)
            && (STORAGE in t0 ==> REJECTED in r.tree && r.tree[REJECTED] == t0[STORAGE])
  {
    Suffixes(STORAGE);
    RollbackAt(t0);
  }

  /** Without a staged storage directory, the whole outcome. Where the tool can restore
      the live store, the node keeps every entry of it -- and the shell aborts on the
      owner it never recorded. Where it cannot, the live storage is moved to `.rejected`
      and the fallback, if any, takes its place. */
  lemma WithoutStagedStorage(t0: Tree, marker: Option<Reason>, w: World)
    requires !StagedFolder(w, STORAGE) && !w.containerRunning && Refused(t0, w) == None
    ensures var (r, exit) := Script(t0, marker, w);
            && (exit == Aborted <==> Restorable(t0, w) && STORAGE !in w.staged)
            && (Restorable(t0, w) ==> SameContents(StoreIn(r.tree), StoreIn(t0))
                                      && SameIdentities(StoreIn(r.tree), StoreIn(t0)))
            && (!Restorable(t0, w) ==>
                  && (if HasPrevious(t0) then STORAGE in r.tree && r.tree[STORAGE] == t0[Previous(STORAGE)]
                      else STORAGE !in r.tree)
                  && (STORAGE in t0 ==> REJECTED in r.tree && r.tree[REJECTED] == t0[STORAGE]))
  {
    if Restorable(t0, w) {
      OwnTreeStays(t0, marker, w);
      SameContentsSameIdentities(StoreIn(Script(t0, marker, w).0.tree), StoreIn(t0));
    } else {
      OwnTreeIsSetAside(t0, marker, w);
    }
  }

  /** Nothing of the live storage is lost by falling back. */
  predicate FallbackIsOwn(t0: Tree) {
    if HasPrevious(t0) then STORAGE in t0 && OwnTree(t0[Previous(STORAGE)], t0[STORAGE]) else STORAGE !in t0
  }

  /** No staged file of the storage's name changes what is in it. */
  predicate NothingLands(t0: Tree, w: World) {
    STORAGE in t0 && t0[STORAGE].Folder? ==> Landed(t0[STORAGE].files, w) == t0[STORAGE].files
  }

  /** Exactly when the storage is safe without a staged directory. */
  lemma SafeWithoutStagedStorage(t0: Tree, marker: Option<Reason>, w: World)
    requires Listed(w) && !StagedFolder(w, STORAGE) && !w.containerRunning && Refused(t0, w) == None
    ensures SafeStorage(Script(t0, marker, w).0.tree, t0, w) <==>
              if Restorable(t0, w) then NothingLands(t0, w) else FallbackIsOwn(t0)
  {
    ListedExactly(w);
    if Restorable(t0, w) {
      OwnTreeStays(t0, marker, w);
    } else {
      OwnTreeIsSetAside(t0, marker, w);
    }
  }

  /** The losing input: the tool fails, nothing was staged for the storage and nothing
      earlier is there. The node's own storage is moved aside and it comes up with none. */
  lemma OwnStorageIsSetAside(t0: Tree, marker: Option<Reason>, w: World)
    requires !StagedFolder(w, STORAGE) && !w.containerRunning && Refused(t0, w) == None
    requires w.restoreFails && STORAGE in t0 && Previous(STORAGE) !in t0
    ensures var t := Script(t0, marker, w).0.tree;
            !SafeStorage(t, t0, w) && STORAGE !in t && REJECTED in t && t[REJECTED] == t0[STORAGE]
  {
    OwnTreeIsSetAside(t0, marker, w);
  }

  // ------------------------------------------------------- the whole is installed

  /** No staged name is another staged directory's name with a suffix. */
  predicate Unentangled(w: World) {
    forall m, n :: m in w.staged && n in w.staged && m != n ==> n !in Touched(m)
  }

  /** The copy and the change of owner of `n` both succeed. */
  predicate Installs(t0: Tree, n: Name, w: World)
    requires n in w.staged
  {
    && n !in w.copyFails
    && (w.staged[n].Folder? && n in t0 ==> t0[n].Folder?)
    && (OwnerOf(t0, n, w).Some? ==> n !in w.chownFails)
  }

  /** What installing `n` leaves there. */
  function Expected(t0: Tree, n: Name, w: World): Item
    requires n in w.staged
  {
    var item :=
      if w.staged[n].File? && n in t0 && t0[n].Folder? then t0[n].(files := t0[n].files[n := w.staged[n].text])
      else w.staged[n];
    OwnedBy(item, OwnerOf(t0, n, w))
  }

  predicate InstalledAt(t: Tree, t0: Tree, n: Name, w: World)
    requires n in w.staged
  {
    n in t && t[n] == Expected(t0, n, w)
  }

  predicate LoopDir(w: World, n: Name) { StagedFolder(w, n) && n != STORAGE }

  lemma InstallDirAt(r: Run, n: Name, w: World, t0: Tree)
    requires LoopDir(w, n) && AgreeAt(r.tree, t0, n)
    ensures var r' := InstallDir(r, n, w, t0);
            && (r'.reasons == r.reasons <==> Installs(t0, n, w))
            && (Installs(t0, n, w) ==> InstalledAt(r'.tree, t0, n, w))
  {
    SwapDirAt(r.tree, n, w);
  }

  lemma {:induction false} DirsInstall(r: Run, order: seq<Name>, w: World, t0: Tree)
    requires NoDuplicates(order) && Unentangled(w)
    requires forall n :: n in order && LoopDir(w, n) ==> AgreeAt(r.tree, t0, n)
    ensures var r' := InstallDirs(r, order, w, t0);
            && r.reasons <= r'.reasons
            && (r'.reasons == r.reasons <==> forall n :: n in order && LoopDir(w, n) ==> Installs(t0, n, w))
            && (forall n :: n in order && LoopDir(w, n) && Installs(t0, n, w) ==> InstalledAt(r'.tree, t0, n, w))
  {
    if order != [] {
      var front, n := order[..|order| - 1], order[|order| - 1];
      assert order == front + [n];
      var before := InstallDirs(r, front, w, t0);
      DirsInstall(r, front, w, t0);
      if LoopDir(w, n) {
        InstallDirsFrame(r, front, w, t0, n);
        InstallDirAt(before, n, w, t0);
        LoopsExtend(r, order, w, t0);
        forall m | m in front && LoopDir(w, m) && Installs(t0, m, w)
          ensures InstalledAt(InstallDir(before, n, w, t0).tree, t0, m, w)
        {
          InstallDirFrame(before, n, w, t0, m);
        }
      }
    }
  }

  lemma CopyFileAt(t: Tree, n: Name, w: World, t0: Tree)
    requires StagedFile(w, n) && AgreeAt(t, t0, n)
    ensures var (t', ok) := CopyFile(t, n, w);
            && (ok <==> n !in w.copyFails)
            && (ok ==> n in t' && OwnedBy(t'[n], OwnerOf(t0, n, w)) == Expected(t0, n, w))
            && (forall x :: x != n ==> AgreeAt(t', t, x))
  {
  }

  lemma ChownAt(r: Run, n: Name, w: World, owner: Option<Owner>)
    requires n in r.tree
    ensures var r' := Chown(r, n, w, owner);
            && r.reasons <= r'.reasons
            && (r'.reasons == r.reasons <==> (owner.Some? ==> n !in w.chownFails))
            && (r'.reasons == r.reasons ==> n in r'.tree && r'.tree[n] == OwnedBy(r.tree[n], owner))
            && (forall x :: x != n ==> AgreeAt(r'.tree, r.tree, x))
  {
  }

  lemma InstallFileAt(r: Run, n: Name, w: World, t0: Tree)
    requires StagedFile(w, n) && AgreeAt(r.tree, t0, n)
    ensures var r' := InstallFile(r, n, w, t0);
            && r.reasons <= r'.reasons
            && (r'.reasons == r.reasons <==> Installs(t0, n, w))
            && (Installs(t0, n, w) ==> InstalledAt(r'.tree, t0, n, w))
            && (forall x :: x != n ==> AgreeAt(r'.tree, r.tree, x))
  {
    var (t, ok) := CopyFile(r.tree, n, w);
    CopyFileAt(r.tree, n, w, t0);
    if ok {
      ChownAt(r.(tree := t), n, w, OwnerOf(t0, n, w));
    }
  }

  lemma {:induction false} FilesInstall(r: Run, order: seq<Name>, w: World, t0: Tree)
    requires NoDuplicates(order)
    requires forall n :: n in order && StagedFile(w, n) ==> AgreeAt(r.tree, t0, n)
    ensures var r' := InstallFiles(r, order, w, t0);
            && r.reasons <= r'.reasons
            && (r'.reasons == r.reasons <==> forall n :: n in order && StagedFile(w, n) ==> Installs(t0, n, w))
            && (forall n :: n in order && StagedFile(w, n) && Installs(t0, n, w) ==> InstalledAt(r'.tree, t0, n, w))
  {
    if order != [] {
      var front, n := order[..|order| - 1], order[|order| - 1];
      assert order == front + [n];
      FilesInstall(r, front, w, t0);
      if StagedFile(w, n) {
        assert n !in front;
        InstallFilesFrame(r, front, w, t0, n);
        var before := InstallFiles(r, front, w, t0);
        InstallFileAt(before, n, w, t0);
        forall m | m in front && StagedFile(w, m) && Installs(t0, m, w)
          ensures InstalledAt(InstallFile(before, n, w, t0).tree, t0, m, w)
        {
          assert AgreeAt(InstallFile(before, n, w, t0).tree, before.tree, m);
        }
      }
    }
  }

  /** Every entry is attempted: each one whose own commands succeed is installed,
      whatever happened to the others. */
  lemma EveryEntryIsAttempted(r: Run, w: World, t0: Tree)
    requires Listed(w) && Unentangled(w) && StagedFolder(w, STORAGE) && STORAGE in r.tree
    requires forall n :: n in w.staged && n != STORAGE ==> AgreeAt(r.tree, t0, n)
    requires r.failed <==> r.reasons != []
    ensures var f := Finish(r, w, t0);
            && (forall n :: n in w.staged && n != STORAGE && Installs(t0, n, w) ==> InstalledAt(f.tree, t0, n, w))
            && (f.reasons == [] <==> r.reasons == [] && w.age <= w.staleAfter
                                     && (OwnerOf(t0, STORAGE, w).Some? ==> STORAGE !in w.chownFails)
                                     && forall n :: n in w.staged && n != STORAGE ==> Installs(t0, n, w))
  {
    var owned := Chown(r, STORAGE, w, OwnerOf(t0, STORAGE, w));
    var dirs := InstallDirs(owned, w.order, w, t0);
    var files := InstallFiles(dirs, w.order, w, t0);
    ListedExactly(w);
    DirsInstall(owned, w.order, w, t0);
    forall n | n in w.order && StagedFile(w, n)
      ensures AgreeAt(dirs.tree, t0, n)
    {
      InstallDirsFrame(owned, w.order, w, t0, n);
    }
    FilesInstall(dirs, w.order, w, t0);
    forall n | n in w.staged && LoopDir(w, n)
      ensures AgreeAt(files.tree, dirs.tree, n)
    {
      InstallFilesFrame(dirs, w.order, w, t0, n);
    }
    LoopsExtend(owned, w.order, w, t0);
    LoopsExtend(dirs, w.order, w, t0);
  }

  /** Nothing at all goes wrong. */
  predicate Healthy(t0: Tree, w: World)
    requires StagedFolder(w, STORAGE)
  {
    && Refused(t0, w) == None
    && !w.restoreFails && RestoreTool(w.staged[STORAGE].store, Captured(t0, w).value).1 == Ok0
    && (forall n :: n in w.staged ==> Installs(t0, n, w))
    && w.age <= w.staleAfter
  }

  /** How the run enters its last stretch, when it gets that far. */
  lemma ReachesFinish(t0: Tree, marker: Option<Reason>, w: World) returns (r: Run)
    requires StagedFolder(w, STORAGE) && !w.containerRunning && Refused(t0, w) == None
    requires STORAGE !in w.copyFails && (STORAGE in t0 ==> t0[STORAGE].Folder?)
    requires !w.restoreFails && RestoreTool(w.staged[STORAGE].store, Captured(t0, w).value).1 != Failed1
    ensures Script(t0, marker, w) == (Finish(r, w, t0), Zero)
    ensures r.failed <==> r.reasons != []
    ensures r.reasons == [] <==> RestoreTool(w.staged[STORAGE].store, Captured(t0, w).value).1 == Ok0
    ensures r.reasons == if Identities(StoreIn(t0)) == [] then [NoLocalIdentity] else []
    ensures STORAGE in r.tree && Grafted(r.tree[STORAGE], t0, w) && r.tree[STORAGE].owner == ROOT
    ensures STORAGE in t0 ==> Previous(STORAGE) in r.tree && r.tree[Previous(STORAGE)] == t0[STORAGE]
    ensures forall x :: x !in Touched(STORAGE) ==> AgreeAt(r.tree, t0, x)
  {
    SwapDirAt(t0, STORAGE, w);
    Suffixes(STORAGE);
    var (restored, rc) := RestoreIdentity(SwapDir(t0, STORAGE, w).0, Captured(t0, w).value, w);
    r := Run(restored, marker, [], false);
    if rc == NoLocalIdentity2 {
      r := FailedBy(r, NoLocalIdentity);
    }
  }

  /** A clean swap, exactly: no reason is marked -- and so the marker is removed --
      if and only if every single command succeeded. */
  lemma CleanExactly(t0: Tree, marker: Option<Reason>, w: World)
    requires Listed(w) && Unentangled(w) && StagedFolder(w, STORAGE) && !w.containerRunning
    ensures Script(t0, marker, w).0.reasons == [] <==> Healthy(t0, w)
    ensures Healthy(t0, w) ==> Script(t0, marker, w).0.marker == None
  {
    MarkerIsTheFirstReason(t0, marker, w);
    if Refused(t0, w) == None {
      var tool := RestoreTool(w.staged[STORAGE].store, Captured(t0, w).value);
      SwapDirAt(t0, STORAGE, w);
      StorageIsSafe(t0, marker, w);
      if STORAGE !in w.copyFails && (STORAGE in t0 ==> t0[STORAGE].Folder?) && !w.restoreFails && tool.1 != Failed1 {
        var r := ReachesFinish(t0, marker, w);
        EveryEntryIsAttempted(r, w, t0);
      }
    }
  }

  /** And then every staged entry is in place under its captured owner, the storage is
      the grafted one with the old one kept beside it, and nothing else moved. */
  lemma CleanInstallsEverything(t0: Tree, marker: Option<Reason>, w: World)
    requires Listed(w) && Unentangled(w) && StagedFolder(w, STORAGE) && !w.containerRunning && Healthy(t0, w)
    ensures var t := Script(t0, marker, w).0.tree;
            && (forall n :: n in w.staged && n != STORAGE ==> InstalledAt(t, t0, n, w))
            && STORAGE in t && Grafted(t[STORAGE], t0, w)
            && (STORAGE in t0 ==> Previous(STORAGE) in t && t[Previous(STORAGE)] == t0[STORAGE])
            && (forall x :: (forall n :: n in w.staged ==> x !in Touched(n)) ==> AgreeAt(t, t0, x))
  {
    var r := ReachesFinish(t0, marker, w);
    EveryEntryIsAttempted(r, w, t0);
    FinishKeepsStorage(r, w, t0);
    PreviousStorageStays(r, w, t0);
    forall x | forall n :: n in w.staged ==> x !in Touched(n)
      ensures AgreeAt(Script(t0, marker, w).0.tree, t0, x)
    {
      assert STORAGE in w.staged && x !in Touched(STORAGE);
      FinishFrame(r, w, t0, x);
    }
  }

  /** In place means at its own name -- except a staged file that meets a directory
      there, which lands inside it, in a run that still counts as clean. */
  lemma FileLandsAtItsName(t0: Tree, marker: Option<Reason>, w: World, n: Name)
    requires Listed(w) && Unentangled(w) && StagedFolder(w, STORAGE) && !w.containerRunning && Healthy(t0, w)
    requires StagedFile(w, n)
    ensures var t := Script(t0, marker, w).0.tree;
            && n in t && (t[n].File? <==> !(n in t0 && t0[n].Folder?))
            && (if t[n].File? then t[n].text == w.staged[n].text
                else n in t[n].files && t[n].files[n] == w.staged[n].text)
  {
    CleanInstallsEverything(t0, marker, w);
  }

  lemma FinishFrame(r: Run, w: World, t0: Tree, x: Name)
    requires Listed(w) && x != STORAGE
    requires forall n :: n in w.staged && n != STORAGE ==> x !in Touched(n)
    ensures AgreeAt(Finish(r, w, t0).tree, r.tree, x)
  {
    ListedExactly(w);
    var owned := Chown(r, STORAGE, w, OwnerOf(t0, STORAGE, w));
    InstallDirsFrame(owned, w.order, w, t0, x);
    InstallFilesFrame(InstallDirs(owned, w.order, w, t0), w.order, w, t0, x);
  }

  lemma PreviousStorageStays(r: Run, w: World, t0: Tree)
    requires Listed(w) && Unentangled(w) && StagedFolder(w, STORAGE)
    ensures AgreeAt(Finish(r, w, t0).tree, r.tree, Previous(STORAGE))
  {
    forall n | n in w.staged && n != STORAGE
      ensures Previous(STORAGE) !in Touched(n)
    {
      assert n !in Touched(STORAGE);
      SuffixesAreInjective(STORAGE, n);
    }
    Suffixes(STORAGE);
    FinishFrame(r, w, t0, Previous(STORAGE));
  }

  // ------------------------------------------------------------- whose it ends up

  /** `n` belongs to whom it belonged to, or, if that is not known, to whom the
      configuration belongs to, as far as that is known. */
  predicate RightOwner(t: Tree, t0: Tree, n: Name, w: World) {
    && n in t
    && (n in t0 && n !in w.unstatable ==> t[n].owner == t0[n].owner)
    && (n !in t0 || n in w.unstatable ==> w.configOwner in {None, Some(t[n].owner)})
  }

  /** A directory cannot take the place of a file. */
  predicate CanReplace(t0: Tree, n: Name, w: World)
    requires n in w.staged && n in t0
  {
    w.staged[n].Folder? ==> t0[n].Folder?
  }

  /** Each entry whose copy and change of owner succeed has the right owner, in any run
      that gets as far as the entries: the copies leave all of it to root. */
  lemma OwnersAreKept(t0: Tree, marker: Option<Reason>, w: World)
    requires Listed(w) && Unentangled(w) && StagedFolder(w, STORAGE) && !w.containerRunning
    requires Refused(t0, w) == None && STORAGE !in w.copyFails && (STORAGE in t0 ==> t0[STORAGE].Folder?)
    requires !w.restoreFails && RestoreTool(w.staged[STORAGE].store, Captured(t0, w).value).1 != Failed1
    ensures var t := Script(t0, marker, w).0.tree;
            forall n :: n in w.staged && n !in w.copyFails && n !in w.chownFails && (n in t0 ==> CanReplace(t0, n, w))
                        ==> RightOwner(t, t0, n, w)
  {
    var r := ReachesFinish(t0, marker, w);
    EveryEntryIsAttempted(r, w, t0);
    FinishKeepsStorage(r, w, t0);
    var t := Script(t0, marker, w).0.tree;
    forall n | n in w.staged && n != STORAGE && Installs(t0, n, w)
      ensures RightOwner(t, t0, n, w)
    {
      assert InstalledAt(t, t0, n, w);
    }
  }

  /** When the script marks no reason, every staged entry -- the storage too -- has the
      right owner and the staged contents, each directory it replaced is still there,
      its owner included, and everything else is as it was. */
  lemma CleanOwnership(t0: Tree, marker: Option<Reason>, w: World)
    requires Listed(w) && Unentangled(w) && StagedFolder(w, STORAGE) && !w.containerRunning
    requires Script(t0, marker, w).0.reasons == []
    ensures var t := Script(t0, marker, w).0.tree;
            && (forall n :: n in w.staged ==> RightOwner(t, t0, n, w))
            && (forall n :: LoopDir(w, n) ==>
                  t[n].Folder? && t[n].files == w.staged[n].files && t[n].store == w.staged[n].store)
            && (forall n :: StagedFolder(w, n) && n in t0 ==> Previous(n) in t && t[Previous(n)] == t0[n])
            && (forall x :: (forall n :: n in w.staged ==> x !in Touched(n)) ==> AgreeAt(t, t0, x))
  {
    CleanExactly(t0, marker, w);
    CleanInstallsEverything(t0, marker, w);
    var r := ReachesFinish(t0, marker, w);
    FinishKeepsStorage(r, w, t0);
    var t := Script(t0, marker, w).0.tree;
    forall n | n in w.staged
      ensures RightOwner(t, t0, n, w)
    {
      assert n != STORAGE ==> InstalledAt(t, t0, n, w);
    }
    forall n | LoopDir(w, n)
      ensures t[n].Folder? && t[n].files == w.staged[n].files && t[n].store == w.staged[n].store
    {
      assert InstalledAt(t, t0, n, w);
    }
    FinishKeepsPrevious(r, w, t0);
  }

  predicate PreviousKept(t: Tree, t0: Tree, n: Name) {
    n in t0 ==> Previous(n) in t && t[Previous(n)] == t0[n]
  }

  lemma InstallDirKeepsPrevious(r: Run, n: Name, w: World, t0: Tree)
    requires LoopDir(w, n) && AgreeAt(r.tree, t0, n) && Installs(t0, n, w)
    ensures PreviousKept(InstallDir(r, n, w, t0).tree, t0, n)
  {
    SwapDirAt(r.tree, n, w);
    Suffixes(n);
  }

  lemma {:induction false} DirsKeepPrevious(r: Run, order: seq<Name>, w: World, t0: Tree)
    requires NoDuplicates(order) && Unentangled(w)
    requires forall n :: n in order && LoopDir(w, n) ==> AgreeAt(r.tree, t0, n)
    ensures forall n :: n in order && LoopDir(w, n) && Installs(t0, n, w) ==>
              PreviousKept(InstallDirs(r, order, w, t0).tree, t0, n)
  {
    if order != [] {
      var front, n := order[..|order| - 1], order[|order| - 1];
      assert order == front + [n];
      DirsKeepPrevious(r, front, w, t0);
      if LoopDir(w, n) {
        var before := InstallDirs(r, front, w, t0);
        InstallDirsFrame(r, front, w, t0, n);
        if Installs(t0, n, w) {
          InstallDirKeepsPrevious(before, n, w, t0);
        }
        forall m | m in front && LoopDir(w, m) && Installs(t0, m, w)
          ensures PreviousKept(InstallDir(before, n, w, t0).tree, t0, m)
        {
          SuffixesAreInjective(m, n);
          InstallDirFrame(before, n, w, t0, Previous(m));
        }
      }
    }
  }

  lemma FinishKeepsPrevious(r: Run, w: World, t0: Tree)
    requires Listed(w) && Unentangled(w) && StagedFolder(w, STORAGE)
    requires forall n :: n in w.staged && n != STORAGE ==> AgreeAt(r.tree, t0, n)
    ensures forall n :: LoopDir(w, n) && Installs(t0, n, w) ==> PreviousKept(Finish(r, w, t0).tree, t0, n)
  {
    ListedExactly(w);
    var owned := Chown(r, STORAGE, w, OwnerOf(t0, STORAGE, w));
    var dirs := InstallDirs(owned, w.order, w, t0);
    DirsKeepPrevious(owned, w.order, w, t0);
    forall n | LoopDir(w, n) && Installs(t0, n, w)
      ensures PreviousKept(InstallFiles(dirs, w.order, w, t0).tree, t0, n)
    {
      Suffixes(n);
      assert Previous(n) !in w.staged;
      InstallFilesFrame(dirs, w.order, w, t0, Previous(n));
    }
  }

  // --------------------------------------------------------- what a failure leaves

  /** A go-bag whose identity cannot be grafted is rolled back: the storage and everything
      else is what it was, and the staged storage is kept as the rejected one. */
  lemma RefusedGraftIsRolledBack(t0: Tree, marker: Option<Reason>, w: World)
    requires StagedFolder(w, STORAGE) && !w.containerRunning && Refused(t0, w) == None
    requires STORAGE !in w.copyFails && (STORAGE in t0 ==> t0[STORAGE].Folder?)
    requires w.restoreFails || RestoreTool(w.staged[STORAGE].store, Captured(t0, w).value).1 == Failed1
    ensures var (r, exit) := Script(t0, marker, w);
            && exit == Zero && r.reasons == [IdentityRestoreFailed]
            && AgreeAt(r.tree, t0, STORAGE)
            && REJECTED in r.tree && r.tree[REJECTED] == w.staged[STORAGE]
            && (forall x :: x !in Touched(STORAGE) + {REJECTED} ==> AgreeAt(r.tree, t0, x))
  {
    Suffixes(STORAGE);
    SwapDirAt(t0, STORAGE, w);
    RollbackAt(SwapDir(t0, STORAGE, w).0);
  }

  /** A directory whose copy fails, or that would have to replace a file, is left as it
      was, whatever happens to the other entries. */
  lemma {:induction false} FailedDirectoryStays(r: Run, order: seq<Name>, w: World, t0: Tree, n: Name)
    requires NoDuplicates(order) && Unentangled(w) && n in order && LoopDir(w, n) && AgreeAt(r.tree, t0, n)
    requires n in w.copyFails || (n in t0 && t0[n].File?)
    ensures AgreeAt(InstallDirs(r, order, w, t0).tree, t0, n)
  {
    var front, last := order[..|order| - 1], order[|order| - 1];
    assert order == front + [last];
    if last == n {
      InstallDirsFrame(r, front, w, t0, n);
      SwapDirAt(InstallDirs(r, front, w, t0).tree, n, w);
    } else {
      FailedDirectoryStays(r, front, w, t0, n);
      if LoopDir(w, last) {
        InstallDirFrame(InstallDirs(r, front, w, t0), last, w, t0, n);
      }
    }
  }

  lemma FinishLeavesFailed(r: Run, w: World, t0: Tree, n: Name)
    requires Listed(w) && Unentangled(w) && LoopDir(w, n) && AgreeAt(r.tree, t0, n)
    requires n in w.copyFails || (n in t0 && t0[n].File?)
    ensures AgreeAt(Finish(r, w, t0).tree, t0, n)
  {
    ListedExactly(w);
    var owned := Chown(r, STORAGE, w, OwnerOf(t0, STORAGE, w));
    FailedDirectoryStays(owned, w.order, w, t0, n);
    InstallFilesFrame(InstallDirs(owned, w.order, w, t0), w.order, w, t0, n);
  }

  lemma RollbackFrame(t: Tree, x: Name)
    requires x != REJECTED && x !in Touched(STORAGE)
    ensures AgreeAt(Rollback(t), t, x)
  {
  }

  /** So in the promoted tree too -- but for a staged directory of the rejected storage's
      own name, which a rollback replaces. */
  lemma FailedEntryStays(t0: Tree, marker: Option<Reason>, w: World, n: Name)
    requires Listed(w) && Unentangled(w) && StagedFolder(w, STORAGE) && !w.containerRunning
    requires LoopDir(w, n) && (n in w.copyFails || (n in t0 && t0[n].File?))
    ensures var r := Script(t0, marker, w).0;
            AgreeAt(r.tree, t0, n) || (n == REJECTED && r.reasons == [IdentityRestoreFailed])
  {
    Suffixes(STORAGE);
    SwapDirAt(t0, STORAGE, w);
    assert n !in Touched(STORAGE);
    if Refused(t0, w) == None && SwapDir(t0, STORAGE, w).1 {
      var (restored, rc) := RestoreIdentity(SwapDir(t0, STORAGE, w).0, Captured(t0, w).value, w);
      assert AgreeAt(restored, t0, n);
      if rc != Failed1 {
        FinishLeavesFailed(Restored(Run(t0, marker, [], false), restored, rc), w, t0, n);
      } else if n != REJECTED {
        RollbackFrame(restored, n);
      }
    }
  }

  // ----------------------------------------------------------- every reason there is

  /** What the entry `n` alone adds to the reasons. */
  function EntryReasons(t0: Tree, n: Name, w: World): seq<Reason>
    requires n in w.staged
  {
    if n in w.copyFails || (n in t0 && !CanReplace(t0, n, w)) then [SwapFailed]
    else OwnerReasons(t0, n, w)
  }

  /** Changing the owner is tried when there is an owner to change it to. */
  function OwnerReasons(t0: Tree, n: Name, w: World): seq<Reason> {
    var known := (n in t0 && n !in w.unstatable) || w.configOwner.Some?;
    if known && n in w.chownFails then [OwnershipRestoreFailed] else []
  }

  /** The reasons of the directories among `order`, or of the files, one after the other. */
  function ReasonsOf(t0: Tree, order: seq<Name>, w: World, directories: bool): seq<Reason> {
    if order == [] then []
    else
      var before, n := ReasonsOf(t0, order[..|order| - 1], w, directories), order[|order| - 1];
      if (if directories then LoopDir(w, n) else StagedFile(w, n)) then before + EntryReasons(t0, n, w) else before
  }

  lemma DirAddsItsReasons(r: Run, n: Name, w: World, t0: Tree)
    requires LoopDir(w, n) && AgreeAt(r.tree, t0, n)
    ensures InstallDir(r, n, w, t0).reasons == r.reasons + EntryReasons(t0, n, w)
  {
    SwapDirAt(r.tree, n, w);
  }

  lemma FileAddsItsReasons(r: Run, n: Name, w: World, t0: Tree)
    requires StagedFile(w, n) && AgreeAt(r.tree, t0, n)
    ensures InstallFile(r, n, w, t0).reasons == r.reasons + EntryReasons(t0, n, w)
  {
    CopyFileAt(r.tree, n, w, t0);
  }

  lemma {:induction false} DirsAddTheirReasons(r: Run, order: seq<Name>, w: World, t0: Tree)
    requires NoDuplicates(order) && Unentangled(w)
    requires forall n :: n in order && LoopDir(w, n) ==> AgreeAt(r.tree, t0, n)
    ensures InstallDirs(r, order, w, t0).reasons == r.reasons + ReasonsOf(t0, order, w, true)
  {
    if order != [] {
      var front, n := order[..|order| - 1], order[|order| - 1];
      assert order == front + [n];
      DirsAddTheirReasons(r, front, w, t0);
      if LoopDir(w, n) {
        InstallDirsFrame(r, front, w, t0, n);
        DirAddsItsReasons(InstallDirs(r, front, w, t0), n, w, t0);
      }
    }
  }

  lemma {:induction false} FilesAddTheirReasons(r: Run, order: seq<Name>, w: World, t0: Tree)
    requires NoDuplicates(order)
    requires forall n :: n in order && StagedFile(w, n) ==> AgreeAt(r.tree, t0, n)
    ensures InstallFiles(r, order, w, t0).reasons == r.reasons + ReasonsOf(t0, order, w, false)
  {
    if order != [] {
      var front, n := order[..|order| - 1], order[|order| - 1];
      assert order == front + [n];
      FilesAddTheirReasons(r, front, w, t0);
      if StagedFile(w, n) {
        assert n !in front;
        InstallFilesFrame(r, front, w, t0, n);
        FileAddsItsReasons(InstallFiles(r, front, w, t0), n, w, t0);
      }
    }
  }

  lemma LoopsAddTheirReasons(r: Run, w: World, t0: Tree)
    requires Listed(w) && Unentangled(w)
    requires forall n :: n in w.staged && n != STORAGE ==> AgreeAt(r.tree, t0, n)
    requires StagedFolder(w, STORAGE)
    ensures InstallFiles(InstallDirs(r, w.order, w, t0), w.order, w, t0).reasons
            == r.reasons + ReasonsOf(t0, w.order, w, true) + ReasonsOf(t0, w.order, w, false)
  {
    var dirs := InstallDirs(r, w.order, w, t0);
    ListedExactly(w);
    DirsAddTheirReasons(r, w.order, w, t0);
    forall n | n in w.order && StagedFile(w, n)
      ensures AgreeAt(dirs.tree, t0, n)
    {
      InstallDirsFrame(r, w.order, w, t0, n);
    }
    FilesAddTheirReasons(dirs, w.order, w, t0);
  }

  /** Failed means that some reason was marked. */
  predicate FailedIsMarked(r: Run) { r.failed <==> r.reasons != [] }

  lemma LoopsKeepFailedMarked(r: Run, w: World, t0: Tree)
    requires FailedIsMarked(r)
    ensures FailedIsMarked(InstallFiles(InstallDirs(r, w.order, w, t0), w.order, w, t0))
  {
    LoopsExtend(r, w.order, w, t0);
    LoopsExtend(InstallDirs(r, w.order, w, t0), w.order, w, t0);
  }

  lemma StorageAddsItsReasons(r: Run, w: World, t0: Tree)
    requires STORAGE in r.tree && FailedIsMarked(r)
    ensures var owned := Chown(r, STORAGE, w, OwnerOf(t0, STORAGE, w));
            && owned.reasons == r.reasons + OwnerReasons(t0, STORAGE, w) && FailedIsMarked(owned)
            && (forall x :: x != STORAGE ==> AgreeAt(owned.tree, r.tree, x))
  {
  }

  /** The reasons of the last stretch: the storage's owner, the directories, the files,
      and the age, which is only looked at when nothing failed. */
  lemma FinishAddsItsReasons(r: Run, w: World, t0: Tree)
    requires Listed(w) && Unentangled(w) && StagedFolder(w, STORAGE) && STORAGE in r.tree
    requires forall n :: n in w.staged && n != STORAGE ==> AgreeAt(r.tree, t0, n)
    requires FailedIsMarked(r)
    ensures var all := r.reasons + OwnerReasons(t0, STORAGE, w)
                       + ReasonsOf(t0, w.order, w, true) + ReasonsOf(t0, w.order, w, false);
            Finish(r, w, t0).reasons == if all == [] && w.age > w.staleAfter then [Stale(w.age)] else all
  {
    StorageAddsItsReasons(r, w, t0);
    var owned := Chown(r, STORAGE, w, OwnerOf(t0, STORAGE, w));
    LoopsAddTheirReasons(owned, w, t0);
    LoopsKeepFailedMarked(owned, w, t0);
  }

  /** The reasons up to the entries, and whether the run gets to them. */
  function EarlyReasons(t0: Tree, w: World): (seq<Reason>, bool)
    requires StagedFolder(w, STORAGE)
  {
    var own, incoming := Identities(StoreIn(t0)), Identities(w.staged[STORAGE].store);
    if w.verifyFailed then ([VerifyFailed], false)
    else if !w.stagedDirectory || !w.statusFile then ([NoStagedFileset], false)
    else if w.mktempFails || w.captureFails || StoreIn(t0).Unreadable? then ([IdentityRestoreFailed], false)
    else if STORAGE in w.copyFails || (STORAGE in t0 && t0[STORAGE].File?) then ([SwapFailed], false)
    else if w.restoreFails || !w.staged[STORAGE].store.Entries? || 0 < |own| < |incoming|
    then ([IdentityRestoreFailed], false)
    else (if own == [] then [NoLocalIdentity] else [], true)
  }

  /** Every reason a run marks, in its order: the marker is the first of them. */
  lemma ReasonsExactly(t0: Tree, marker: Option<Reason>, w: World)
    requires Listed(w) && Unentangled(w) && StagedFolder(w, STORAGE) && !w.containerRunning
    ensures var (early, on) := EarlyReasons(t0, w);
            var all := if on then early + OwnerReasons(t0, STORAGE, w)
                                  + ReasonsOf(t0, w.order, w, true) + ReasonsOf(t0, w.order, w, false)
                       else early;
            var reasons := if all == [] && w.age > w.staleAfter then [Stale(w.age)] else all;
            var r := Script(t0, marker, w).0;
            r.reasons == reasons && r.marker == if reasons == [] then None else Some(reasons[0])
  {
    MarkerIsTheFirstReason(t0, marker, w);
    NothingIsCaptured(StoreIn(t0));
    if Refused(t0, w) == None {
      RestoreRefusesExactly(StoreIn(t0), w.staged[STORAGE].store);
      SwapDirAt(t0, STORAGE, w);
      StorageIsSafe(t0, marker, w);
      if EarlyReasons(t0, w).1 {
        var r := ReachesFinish(t0, marker, w);
        FinishAddsItsReasons(r, w, t0);
      }
    }
  }

  // ---------------------------------------------------------- the implementation

  class PromotionScript {
    var tree: Tree
    var marker: Option<Reason>
    var marked: bool
    var failed: bool
    ghost var reasons: seq<Reason>

    constructor (tree: Tree, marker: Option<Reason>)
      ensures Valid() && View() == Run(tree, marker, [], false)
    {
      this.tree, this.marker, marked, failed, reasons := tree, marker, false, false, [];
    }

    ghost predicate Valid()
      reads this
    {
      marked <==> reasons != []
    }

    ghost function View(): Run
      reads this
    {
      Run(tree, marker, reasons, failed)
    }

    method Mark(why: Reason)
      requires Valid()
      modifies this`marker, this`marked, this`reasons
      ensures Valid() && View() == Marked(old(View()), why)
    {
      reasons := reasons + [why];
      if marked {
        return;
      }
      marked, marker := true, Some(why);
    }

    method MoveDirectory(from: Name, to: Name) returns (ok: bool)
      requires from in tree && tree[from].Folder? && from != to
      modifies this`tree
      ensures ok <==> !(to in old(tree) && old(tree)[to].File?)
      ensures tree == if ok then (old(tree) - {from})[to := old(tree)[from]] else old(tree)
    {
      if to in tree && tree[to].File? {
        return false;
      }
      tree := (tree - {from})[to := tree[from]];
      ok := true;
    }

    method InstallDirectory(n: Name, w: World) returns (ok: bool)
      modifies this`tree
      ensures (tree, ok) == SwapDir(old(tree), n, w)
    {
      if n !in w.staged || w.staged[n].File? {
        return true;
      }
      Suffixes(n);
      tree := tree - {New(n), Previous(n)};
      if n in w.copyFails {
        if n in w.torn {
          tree := tree[New(n) := w.torn[n]];
        }
        return false;
      }
      tree := tree[New(n) := w.staged[n]];
      if n in tree && tree[n].Folder? {
        var moved := MoveDirectory(n, Previous(n));
      }
      ok := MoveDirectory(New(n), n);
    }

    method ChangeOwner(n: Name, w: World, owner: Option<Owner>)
      requires Valid()
      modifies this
      ensures Valid() && View() == Chown(old(View()), n, w, owner)
    {
      if owner.Some? && n in tree {
        if n in w.chownFails {
          Mark(OwnershipRestoreFailed);
          failed := true;
        } else {
          tree := tree[n := tree[n].(owner := owner.value)];
        }
      }
    }

    /** The owner of every path about to be installed, read before any is touched. */
    method CaptureOwners(w: World) returns (owners: map<Name, Option<Owner>>)
      ensures forall n :: n in w.order ==> n in owners && owners[n] == OwnerOf(tree, n, w)
    {
      owners := map[];
      for i := 0 to |w.order|
        invariant forall n :: n in w.order[..i] ==> n in owners && owners[n] == OwnerOf(tree, n, w)
      {
        var n := w.order[i];
        var owner := w.configOwner;
        if n in tree && n !in w.unstatable {
          owner := Some(tree[n].owner);
        }
        owners := owners[n := owner];
        assert w.order[..i + 1] == w.order[..i] + [n];
      }
      assert w.order[..|w.order|] == w.order;
    }

    method InstallOneDirectory(d: Name, w: World, owner: Option<Owner>, ghost t0: Tree)
      requires Valid() && owner == OwnerOf(t0, d, w)
      modifies this
      ensures Valid() && View() == InstallDir(old(View()), d, w, t0)
    {
      if !StagedFolder(w, d) || d == STORAGE {
        return;
      }
      var ok := InstallDirectory(d, w);
      if !ok {
        Mark(SwapFailed);
        failed := true;
      } else {
        ChangeOwner(d, w, owner);
      }
    }

    method InstallOneFile(f: Name, w: World, owner: Option<Owner>, ghost t0: Tree)
      requires Valid() && owner == OwnerOf(t0, f, w)
      modifies this
      ensures Valid() && View() == InstallFile(old(View()), f, w, t0)
    {
      if !StagedFile(w, f) {
        return;
      }
      var copied := CopyFile(tree, f, w);
      tree := copied.0;
      if !copied.1 {
        Mark(SwapFailed);
        failed := true;
      } else {
        ChangeOwner(f, w, owner);
      }
    }

    method InstallDirectories(w: World, owners: map<Name, Option<Owner>>, ghost t0: Tree)
      requires Valid() && forall n :: n in w.order ==> n in owners && owners[n] == OwnerOf(t0, n, w)
      modifies this
      ensures Valid() && View() == InstallDirs(old(View()), w.order, w, t0)
    {
      for i := 0 to |w.order|
        invariant Valid() && View() == InstallDirs(old(View()), w.order[..i], w, t0)
      {
        assert w.order[..i + 1][..i] == w.order[..i];
        InstallOneDirectory(w.order[i], w, owners[w.order[i]], t0);
      }
      assert w.order[..|w.order|] == w.order;
    }

    method InstallTopLevelFiles(w: World, owners: map<Name, Option<Owner>>, ghost t0: Tree)
      requires Valid() && forall n :: n in w.order ==> n in owners && owners[n] == OwnerOf(t0, n, w)
      modifies this
      ensures Valid() && View() == InstallFiles(old(View()), w.order, w, t0)
    {
      for i := 0 to |w.order|
        invariant Valid() && View() == InstallFiles(old(View()), w.order[..i], w, t0)
      {
        assert w.order[..i + 1][..i] == w.order[..i];
        InstallOneFile(w.order[i], w, owners[w.order[i]], t0);
      }
      assert w.order[..|w.order|] == w.order;
    }

    method RollBack()
      modifies this`tree
      ensures tree == Rollback(old(tree))
    {
      Suffixes(STORAGE);
      tree := tree - {REJECTED};
      if STORAGE in tree {
        tree := (tree - {STORAGE})[REJECTED := tree[STORAGE]];
      }
      if Previous(STORAGE) in tree && tree[Previous(STORAGE)].Folder? {
        var moved := MoveDirectory(Previous(STORAGE), STORAGE);
      }
    }

    /** Everything after the identity is back in place. */
    method InstallTheRest(w: World, owners: map<Name, Option<Owner>>, ghost t0: Tree)
      requires Valid() && STORAGE in w.order
      requires forall n :: n in w.order ==> n in owners && owners[n] == OwnerOf(t0, n, w)
      modifies this
      ensures Valid() && View() == Finish(old(View()), w, t0)
    {
      ChangeOwner(STORAGE, w, owners[STORAGE]);
      InstallDirectories(w, owners, t0);
      InstallTopLevelFiles(w, owners, t0);
      if failed {
        return;
      }
      if w.age > w.staleAfter {
        Mark(Stale(w.age));
        return;
      }
      marker := None;
    }

    /** Whether there is a usable go-bag to install. */
    method GoBagUsable(w: World) returns (usable: bool)
      requires Valid()
      modifies this`marker, this`marked, this`reasons
      ensures Valid() && (usable <==> !w.verifyFailed && w.stagedDirectory && w.statusFile)
      ensures View() == if usable then old(View())
                        else Marked(old(View()), if w.verifyFailed then VerifyFailed else NoStagedFileset)
    {
      if w.verifyFailed {
        Mark(VerifyFailed);
        return false;
      }
      if !w.stagedDirectory || !w.statusFile {
        Mark(NoStagedFileset);
        return false;
      }
      usable := true;
    }

    /** This node's own entries, saved before the swap replaces the file they live in. */
    method CaptureIdentity(w: World) returns (captured: Option<seq<Entry>>)
      requires Valid()
      modifies this`marker, this`marked, this`reasons
      ensures Valid() && captured == Captured(tree, w)
      ensures View() == if captured.Some? then old(View()) else Marked(old(View()), IdentityRestoreFailed)
    {
      captured := None;
      if !w.mktempFails && !w.captureFails {
        captured := Capture(StoreIn(tree));
      }
      if captured == None {
        Mark(IdentityRestoreFailed);
      }
    }

    method Promote(w: World) returns (exit: Exit)
      requires Valid() && !marked && !failed && Listed(w)
      modifies this
      ensures Valid() && (View(), exit) == Script(old(tree), old(marker), w)
    {
      ghost var t0 := tree;
      if w.containerRunning {
        return Zero;
      }
      var usable := GoBagUsable(w);
      if !usable {
        return Zero;
      }
      var owners := CaptureOwners(w);
      var captured := CaptureIdentity(w);
      if captured == None {
        return Zero;
      }
      var ok := InstallDirectory(STORAGE, w);
      if !ok {
        Mark(SwapFailed);
        return Zero;
      }
      var (restored, rc) := RestoreIdentity(tree, captured.value, w);
      tree := restored;
      if rc == NoLocalIdentity2 {
        Mark(NoLocalIdentity);
        failed := true;
      } else if rc != Ok0 {
        RollBack();
        Mark(IdentityRestoreFailed);
        return Zero;
      }
      assert STORAGE in w.order <==> STORAGE in set n | n in w.order;
      if STORAGE !in w.order {
        return Aborted;
      }
      InstallTheRest(w, owners, t0);
      exit := Zero;
    }
  }
}
