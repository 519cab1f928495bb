/**
 The configuration's way from one node to the other, end to end: scanned on the
 leader's disk, published, pulled while publishing goes on, staged, and installed by
 the promotion script.

 Paths are relative, with `/` between components. The config-entries store is the one
 file the installed tree holds in parsed form.
 */
module GoBag {
  import opened Wrappers
  import opened Fileset
  import I = Identity
  import P = Publisher
  import S = Swap

  const ENTRIES_FILE := "core.config_entries"

  // ------------------------------------------------------------------- the pull

  /** Every blob the manifest names, or nothing at all. */
  function PullOf(entries: Entries, blobs: map<Ref, Body>): Option<map<Path, Body>> {
    if forall p :: p in entries ==> entries[p].ref in blobs then Some(map p | p in entries :: blobs[entries[p].ref])
    else None
  }

  /** A manifest whose blobs are all there is pulled whole. */
  lemma WholePulls(entries: Entries, blobs: map<Ref, Body>)
    requires P.Whole(entries, blobs)
    ensures PullOf(entries, blobs) == Some(map p | p in entries :: entries[p].ref.content)
  {
    assert forall p :: p in entries ==> entries[p].ref in blobs;
    assert (map p | p in entries :: blobs[entries[p].ref]) == (map p | p in entries :: entries[p].ref.content);
  }

  /** A missing blob costs the whole pull, and only that does. */
  lemma PullsAllOrNothing(entries: Entries, blobs: map<Ref, Body>)
    ensures PullOf(entries, blobs) == None <==> exists p :: p in entries && entries[p].ref !in blobs
    ensures PullOf(entries, blobs).Some? ==> PullOf(entries, blobs).value.Keys == entries.Keys
  {
  }

  /** A pull whose manifest is of one completed pass and whose blobs are fetched later
      is whole, as long as at most one more pass completed in between. */
  lemma PullStraddlesOnePublish(s: P.State, es: seq<P.Event>, i: nat, k: nat)
    requires i < k <= |es| && P.Inv(s) && P.Completes(s, es, i)
    requires P.Completions(s, es, i + 1, k) <= 1
    requires forall j :: i < j < k ==> es[j] != P.Restart
    ensures var published := P.At(s, es, i).phase.plan.entries;
            PullOf(published, P.At(s, es, k).blobs) == Some(map p | p in published :: published[p].ref.content)
  {
    P.OneGenerationOfRollback(s, es, i, k);
    WholePulls(P.At(s, es, i).phase.plan.entries, P.At(s, es, k).blobs);
  }

  // ---------------------------------------------------------------- the staging

  function Top(p: Path): (t: string)
    ensures t <= p && '/' !in t
    ensures t == p || p[|t|] == '/'
  {
    if p == "" || p[0] == '/' then "" else [p[0]] + Top(p[1..])
  }

  predicate Nested(p: Path) { Top(p) != p }

  /** What follows the first slash. */
  function Rest(p: Path): (r: string)
    requires Nested(p)
    ensures p == Top(p) + "/" + r
  {
    p[|Top(p)| + 1..]
  }

  function Tops(pulled: map<Path, Body>): set<string> {
    set p | p in pulled :: Top(p)
  }

  function Under(pulled: map<Path, Body>, n: string): map<string, Body> {
    map r | r in (set p | p in pulled && Nested(p) && Top(p) == n :: Rest(p)) && n + "/" + r in pulled
      :: pulled[n + "/" + r]
  }

  /** The config-entries file is parsed; every other file is its text. */
  function FolderOf(pulled: map<Path, Body>, n: string, parse: Body -> I.Store): S.Item {
    var files := Under(pulled, n);
    if n == S.STORAGE && ENTRIES_FILE in files
    then S.Folder(files - {ENTRIES_FILE}, parse(files[ENTRIES_FILE]), S.ROOT)
    else S.Folder(files, I.Missing, S.ROOT)
  }

  function Stage(pulled: map<Path, Body>, parse: Body -> I.Store): S.Tree {
    map n | n in Tops(pulled) :: if n in pulled then S.File(pulled[n], S.ROOT) else FolderOf(pulled, n, parse)
  }

  /** No path is both a file and a directory of others. */
  predicate FilesAndFoldersApart(paths: set<Path>) {
    forall p, q :: p in paths && q in paths && Nested(q) ==> p != Top(q)
  }

  /** The text of the file at `p`. */
  function TextAt(t: S.Tree, p: Path): Option<Body> {
    if Top(p) !in t then None
    else if !Nested(p) then (if t[p].File? then Some(t[p].text) else None)
    else if t[Top(p)].Folder? && Rest(p) in t[Top(p)].files then Some(t[Top(p)].files[Rest(p)])
    else None
  }

  const STORE_PATH: Path := S.STORAGE + "/" + ENTRIES_FILE

  lemma {:induction false} TopOf(n: string, r: string)
    requires '/' !in n
    ensures Top(n + "/" + r) == n
  {
    if n != "" {
      assert (n + "/" + r)[1..] == n[1..] + "/" + r && n[0] in n;
      TopOf(n[1..], r);
    }
  }

  lemma StorePathSplits()
    ensures Top(STORE_PATH) == S.STORAGE && Nested(STORE_PATH) && Rest(STORE_PATH) == ENTRIES_FILE
  {
    TopOf(S.STORAGE, ENTRIES_FILE);
  }

  lemma StorePathParts(p: Path)
    requires Nested(p) && Top(p) == S.STORAGE && Rest(p) == ENTRIES_FILE
    ensures p == STORE_PATH
  {
  }

  /** The tree holds at `p` what was pulled for it: the parsed store, or the text. */
  predicate HeldAt(t: S.Tree, p: Path, body: Body, parse: Body -> I.Store) {
    if p == STORE_PATH then S.StoreIn(t) == parse(body) else TextAt(t, p) == Some(body)
  }

  /** Staging loses nothing and moves nothing. */
  lemma StagedWhole(pulled: map<Path, Body>, parse: Body -> I.Store, p: Path)
    requires p in pulled && FilesAndFoldersApart(pulled.Keys)
    ensures HeldAt(Stage(pulled, parse), p, pulled[p], parse)
  {
    if p == STORE_PATH { StorePathSplits(); }
    var n := Top(p);
    assert n in Tops(pulled);
    if Nested(p) {
      assert n !in pulled;
      assert Rest(p) in Under(pulled, n) && Under(pulled, n)[Rest(p)] == pulled[p];
      if n == S.STORAGE && Rest(p) == ENTRIES_FILE { StorePathParts(p); }
    }
  }

  /** And nothing else is staged, all of it root's: a text, or the parsed store, is there
      only if it was pulled. */
  lemma OnlyThePulledIsStaged(pulled: map<Path, Body>, parse: Body -> I.Store, p: Path)
    requires p !in pulled && FilesAndFoldersApart(pulled.Keys)
    ensures TextAt(Stage(pulled, parse), p) == None
    ensures p == STORE_PATH ==> S.StoreIn(Stage(pulled, parse)) == I.Missing
    ensures forall n :: n in Stage(pulled, parse) ==> Stage(pulled, parse)[n].owner == S.Owner(0, 0)
    ensures forall n :: n in Stage(pulled, parse) ==> exists q :: q in pulled && Top(q) == n
  {
    var n := Top(p);
    if n in Tops(pulled) && Nested(p) && n !in pulled {
      assert n + "/" + Rest(p) == p;
      assert Rest(p) !in Under(pulled, n);
    }
    if p == STORE_PATH {
      StorePathSplits();
    }
  }

  // ------------------------------------------------------------ the installation

  /** The storage part of the script goes through: the go-bag is usable, the storage is
      copied, and this node's identity is back in it. */
  predicate StorageInstalls(t0: S.Tree, w: S.World) {
    && S.StagedFolder(w, S.STORAGE) && !w.containerRunning && S.Refused(t0, w) == None
    && S.STORAGE !in w.copyFails && (S.STORAGE in t0 ==> t0[S.STORAGE].Folder?)
    && !w.restoreFails && I.RestoreTool(w.staged[S.STORAGE].store, S.Captured(t0, w).value).1 != I.Failed1
  }

  /** The commands for one entry succeed, and a file does not meet a directory. */
  predicate EntryInstalls(t0: S.Tree, n: S.Name, w: S.World) {
    n in w.staged && (n == S.STORAGE || (S.Installs(t0, n, w) && (w.staged[n].File? && n in t0 ==> t0[n].File?)))
  }

  lemma InstalledText(t0: S.Tree, marker: Option<S.Reason>, w: S.World, p: Path)
    requires S.Listed(w) && S.Unentangled(w) && StorageInstalls(t0, w)
    requires EntryInstalls(t0, Top(p), w)
    ensures TextAt(S.Script(t0, marker, w).0.tree, p) == TextAt(w.staged, p)
  {
    var r := S.ReachesFinish(t0, marker, w);
    S.EveryEntryIsAttempted(r, w, t0);
    S.FinishKeepsStorage(r, w, t0);
    var t := S.Script(t0, marker, w).0.tree;
    if Top(p) == S.STORAGE {
      assert t[S.STORAGE].files == w.staged[S.STORAGE].files;
    } else {
      assert S.InstalledAt(t, t0, Top(p), w);
    }
  }

  /** The store after the script is the staged one with this node's identities put back:
      every other integration's entries are the staged ones, in their order. */
  lemma InstalledStore(t0: S.Tree, marker: Option<S.Reason>, w: S.World)
    requires StorageInstalls(t0, w)
    ensures var st, staged := S.StoreIn(S.Script(t0, marker, w).0.tree), w.staged[S.STORAGE].store;
            && OthersCrossed(st, staged) && I.SameIdentities(st, S.StoreIn(t0))
  {
    var r := S.ReachesFinish(t0, marker, w);
    S.FinishKeepsStorage(r, w, t0);
    I.RestoreKeepsIdentity(S.StoreIn(t0), w.staged[S.STORAGE].store);
  }

  predicate OthersCrossed(st: I.Store, leaders: I.Store) {
    && st.Entries? && leaders.Entries? && st.envelope == leaders.envelope
    && I.Filter(st.entries, false) == I.Filter(leaders.entries, false)
  }

  /** What the leader had at `p` has arrived: its text, or, in the config-entries store,
      every other integration's entries. */
  predicate CrossedAt(t: S.Tree, p: Path, body: Body, parse: Body -> I.Store) {
    if p == STORE_PATH then OthersCrossed(S.StoreIn(t), parse(body)) else TextAt(t, p) == Some(body)
  }

  /** What was found on a disk, published, fetched whole and staged has, after the
      script, arrived at the same path -- entry by entry, whatever happened to the
      others. */
  lemma StagedConfigurationCrosses(
      entries: Entries, blobs: map<Ref, Body>, disk: Disk, parse: Body -> I.Store,
      t0: S.Tree, marker: Option<S.Reason>, w: S.World, p: Path)
    requires P.Whole(entries, blobs) && FilesAndFoldersApart(entries.Keys)
    requires w.staged == Stage(PullOf(entries, blobs).value, parse)
    requires S.Listed(w) && S.Unentangled(w) && StorageInstalls(t0, w)
    requires p in entries && p in disk && entries[p] == FreshEntry(p, disk)
    requires EntryInstalls(t0, Top(p), w)
    ensures CrossedAt(S.Script(t0, marker, w).0.tree, p, disk[p].body, parse)
  {
    WholePulls(entries, blobs);
    var pulled := PullOf(entries, blobs).value;
    StagedWhole(pulled, parse, p);
    if p == STORE_PATH {
      InstalledStore(t0, marker, w);
    } else {
      InstalledText(t0, marker, w, p);
    }
  }

  /** What is staged is what a successful pull staged. */
  predicate StagedFrom(entries: Entries, blobs: map<Ref, Body>, parse: Body -> I.Store, w: S.World) {
    PullOf(entries, blobs).Some? ==> w.staged == Stage(PullOf(entries, blobs).value, parse)
  }

  lemma EntryIsFresh(candidates: seq<Path>, excluded: set<Path>, disks: seq<Disk>, previous: Entries, p: Path)
    requires |disks| > 0 && Honest(disks) && Seen(previous, disks)
    requires FilesAndFoldersApart(disks[|disks| - 1].Keys)
    requires p in candidates && Kept(p, excluded, disks[|disks| - 1])
    ensures var entries, disk := EntriesAgainst(candidates, excluded, disks[|disks| - 1], previous), disks[|disks| - 1];
            p in entries && entries[p] == FreshEntry(p, disk) && FilesAndFoldersApart(entries.Keys)
  {
    IncrementalEqualsFull(candidates, excluded, disks, previous);
  }

  lemma TopIsStaged(pulled: map<Path, Body>, parse: Body -> I.Store, p: Path)
    requires p in pulled
    ensures Top(p) in Stage(pulled, parse)
  {
    assert Top(p) in Tops(pulled);
  }

  lemma ScannedConfigurationCrosses(
      entries: Entries, blobs: map<Ref, Body>,
      candidates: seq<Path>, excluded: set<Path>, disks: seq<Disk>, previous: Entries,
      parse: Body -> I.Store, t0: S.Tree, marker: Option<S.Reason>, w: S.World, p: Path)
    requires P.Whole(entries, blobs) && StagedFrom(entries, blobs, parse, w)
    requires |disks| > 0 && Honest(disks) && Seen(previous, disks)
    requires entries == EntriesAgainst(candidates, excluded, disks[|disks| - 1], previous)
    requires FilesAndFoldersApart(disks[|disks| - 1].Keys)
    requires S.Listed(w) && S.Unentangled(w) && StorageInstalls(t0, w)
    requires p in candidates && Kept(p, excluded, disks[|disks| - 1])
    requires Top(p) in w.staged ==> EntryInstalls(t0, Top(p), w)
    ensures CrossedAt(S.Script(t0, marker, w).0.tree, p, disks[|disks| - 1][p].body, parse)
  {
    EntryIsFresh(candidates, excluded, disks, previous, p);
    WholePulls(entries, blobs);
    TopIsStaged(PullOf(entries, blobs).value, parse, p);
    StagedConfigurationCrosses(entries, blobs, disks[|disks| - 1], parse, t0, marker, w, p);
  }

  /** The leader's side: pass `i` completed over this disk, and the follower fetched its
      blobs at `k`, before a second later pass completed. */
  predicate FetchedInTime(s: P.State, es: seq<P.Event>, i: nat, k: nat) {
    && i < k <= |es| && P.Inv(s) && P.Completes(s, es, i)
    && P.Completions(s, es, i + 1, k) <= 1
    && forall j :: i < j < k ==> es[j] != P.Restart
  }

  /** The configuration crosses: scan, publish, pull and swap together. Whatever the
      leader's pass found on its disk, read by a pull that may straddle one more
      publish, has arrived at the same path of the promoted node; and in the one file
      that differs the leader's other entries are joined by this node's identities. */
  lemma ConfigurationCrosses(
      s: P.State, es: seq<P.Event>, i: nat, k: nat,
      candidates: seq<Path>, excluded: set<Path>, disks: seq<Disk>, previous: Entries,
      parse: Body -> I.Store, t0: S.Tree, marker: Option<S.Reason>, w: S.World, p: Path)
    requires FetchedInTime(s, es, i, k)
    requires |disks| > 0 && Honest(disks) && Seen(previous, disks)
    requires P.At(s, es, i).phase.plan.entries == EntriesAgainst(candidates, excluded, disks[|disks| - 1], previous)
    requires FilesAndFoldersApart(disks[|disks| - 1].Keys)
    requires StagedFrom(P.At(s, es, i).phase.plan.entries, P.At(s, es, k).blobs, parse, w)
    requires S.Listed(w) && S.Unentangled(w) && StorageInstalls(t0, w)
    requires p in candidates && Kept(p, excluded, disks[|disks| - 1])
    requires Top(p) in w.staged ==> EntryInstalls(t0, Top(p), w)
    ensures PullOf(P.At(s, es, i).phase.plan.entries, P.At(s, es, k).blobs).Some?
    ensures CrossedAt(S.Script(t0, marker, w).0.tree, p, disks[|disks| - 1][p].body, parse)
    ensures I.SameIdentities(S.StoreIn(S.Script(t0, marker, w).0.tree), S.StoreIn(t0))
  {
    P.OneGenerationOfRollback(s, es, i, k);
    WholePulls(P.At(s, es, i).phase.plan.entries, P.At(s, es, k).blobs);
    ScannedConfigurationCrosses(P.At(s, es, i).phase.plan.entries, P.At(s, es, k).blobs,
                                candidates, excluded, disks, previous, parse, t0, marker, w, p);
    S.NeverThePeersIdentity(t0, marker, w);
  }
}
