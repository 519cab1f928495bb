/**
 The replicated fileset: which files one pass finds, what it must upload, and
 the publisher that uploads blobs first, swaps the manifest last and then
 prunes.

 A blob's reference is an injective function of its content, so a reference is
 modelled as the content it names. Sealing is an authenticated pair and is left
 out; a stored blob is its plaintext.
 */
module Fileset {
  import opened Sequences
  import opened Wrappers

  type Path = string
  type Body = string

  datatype Ref = Ref(content: Body)

  datatype Stat = Stat(size: nat, mode: int, mtimeNs: int)

  datatype DiskFile = DiskFile(stat: Stat, body: Body, readable: bool)

  type Disk = map<Path, DiskFile>

  datatype FileEntry = FileEntry(path: Path, ref: Ref, stat: Stat)

  type Entries = map<Path, FileEntry>

  function Refs(entries: Entries): set<Ref> {
    set p | p in entries :: entries[p].ref
  }

  // -------------------------------------------------------------- candidates

  function Flatten(groups: seq<seq<Path>>): seq<Path> {
    if groups == [] then [] else Flatten(groups[..|groups| - 1]) + groups[|groups| - 1]
  }

  lemma {:induction false} FlattenExactly(groups: seq<seq<Path>>, p: Path)
    ensures p in Flatten(groups) <==> exists g :: g in groups && p in g
  {
    if groups != [] {
      var front, last := groups[..|groups| - 1], groups[|groups| - 1];
      FlattenExactly(front, p);
      assert groups == front + [last];
    }
  }

  /** The floor, then what the configuration references, then the operator's own
      list. When following the includes fails (`referenced == None`) only the
      floor is published. Each group is one named file or one sorted tree. */
  method Candidates(floor: seq<seq<Path>>, referenced: Option<seq<seq<Path>>>, extra: seq<seq<Path>>,
                    regular: set<Path>)
    returns (found: seq<Path>)
    ensures NoDuplicates(found)
    ensures forall p :: p in found <==>
              && p in regular
              && (p in Flatten(floor)
                  || (referenced.Some? && (p in Flatten(referenced.value) || p in Flatten(extra))))
  {
    found := AddGroups([], floor, regular);
    if referenced == None {
      return;
    }
    found := AddGroups(found, referenced.value, regular);
    found := AddGroups(found, extra, regular);
  }

  method AddGroups(before: seq<Path>, groups: seq<seq<Path>>, regular: set<Path>) returns (found: seq<Path>)
    requires NoDuplicates(before)
    ensures NoDuplicates(found)
    ensures forall p :: p in found <==> p in before || (p in regular && p in Flatten(groups))
  {
    found := before;
    for i := 0 to |groups|
      invariant NoDuplicates(found)
      invariant forall p :: p in found <==> p in before || (p in regular && p in Flatten(groups[..i]))
    {
      ghost var start := found;
      for j := 0 to |groups[i]|
        invariant NoDuplicates(found)
        invariant forall p :: p in found <==> p in start || (p in regular && p in groups[i][..j])
      {
        var p := groups[i][j];
        if p !in found && p in regular {
          found := found + [p];
        }
      }
      assert groups[..i + 1][..i] == groups[..i];
    }
    assert groups[..|groups|] == groups;
  }

  // -------------------------------------------------------------------- scan

  datatype ScanOutcome =
    | Scanned(entries: Entries, bodies: map<Ref, Body>, total: nat)
    | TooLarge(at: Path)
    | ReadFailed(at: Path)

  predicate Kept(p: Path, excluded: set<Path>, disk: Disk) {
    p !in excluded && p in disk
  }

  function FreshEntry(p: Path, disk: Disk): FileEntry
    requires p in disk
  {
    FileEntry(p, Ref(disk[p].body), disk[p].stat)
  }

  /** The quick check: same size, mode and modification time as last published. */
  predicate Unchanged(p: Path, disk: Disk, previous: Entries)
    requires p in disk
  {
    p in previous && previous[p].stat == disk[p].stat
  }

  function EntriesAgainst(candidates: seq<Path>, excluded: set<Path>, disk: Disk, previous: Entries): Entries {
    map p | p in candidates && Kept(p, excluded, disk) ::
      if Unchanged(p, disk, previous) then previous[p] else FreshEntry(p, disk)
  }

  /** A scan from nothing: every kept file read and hashed. */
  function FullEntries(candidates: seq<Path>, excluded: set<Path>, disk: Disk): Entries {
    map p | p in candidates && Kept(p, excluded, disk) :: FreshEntry(p, disk)
  }

  function TotalSize(candidates: seq<Path>, excluded: set<Path>, disk: Disk): nat {
    if candidates == [] then 0
    else
      var p := candidates[|candidates| - 1];
      TotalSize(candidates[..|candidates| - 1], excluded, disk)
      + if Kept(p, excluded, disk) then disk[p].stat.size else 0
  }

  /** Each candidate that exists and is not excluded counts once, by its size. */
  lemma {:induction false} TotalSizeExactly(a: seq<Path>, b: seq<Path>, excluded: set<Path>, disk: Disk)
    ensures TotalSize(a + b, excluded, disk) == TotalSize(a, excluded, disk) + TotalSize(b, excluded, disk)
    ensures |a| == 1 ==>
              TotalSize(a, excluded, disk) == if a[0] in disk && a[0] !in excluded then disk[a[0]].stat.size else 0
  {
    if b == [] {
      assert a + b == a;
    } else {
      assert (a + b)[..|a + b| - 1] == a + b[..|b| - 1];
      TotalSizeExactly(a, b[..|b| - 1], excluded, disk);
    }
    if |a| == 1 {
      assert a[..0] == [];
    }
  }

  lemma {:induction false} PrefixIsNoLarger(candidates: seq<Path>, excluded: set<Path>, disk: Disk, i: nat)
    requires i <= |candidates|
    ensures TotalSize(candidates[..i], excluded, disk) <= TotalSize(candidates, excluded, disk)
  {
    if i == |candidates| {
      assert candidates[..i] == candidates;
    } else {
      var shorter := candidates[..|candidates| - 1];
      PrefixIsNoLarger(shorter, excluded, disk, i);
      assert shorter[..i] == candidates[..i];
    }
  }

  predicate OverCap(total: nat, maxBytes: Option<nat>) {
    maxBytes.Some? && total > maxBytes.value
  }

  /** What a pass has to upload: the contents of new and changed files. */
  function Uploads(entries: Entries, disk: Disk, previous: Entries): set<Ref> {
    set p | p in entries && !(p in disk && Unchanged(p, disk, previous)) :: entries[p].ref
  }

  /** A file is passed over exactly when its size, mode and time are those of its last entry:
      that entry is then carried on, and the file is neither read nor uploaded for it.
      Every other kept file is read, described as it is, and uploaded. */
  lemma QuickCheckExactly(candidates: seq<Path>, excluded: set<Path>, disk: Disk, previous: Entries, p: Path)
    ensures var entries := EntriesAgainst(candidates, excluded, disk, previous);
            && (p in entries <==> p in candidates && p !in excluded && p in disk)
            && (p in entries ==>
                  if p in previous && previous[p].stat == disk[p].stat then entries[p] == previous[p]
                  else
                    && entries[p].path == p && entries[p].ref.content == disk[p].body && entries[p].stat == disk[p].stat
                    && entries[p].ref in Uploads(entries, disk, previous))
  {
    var entries := EntriesAgainst(candidates, excluded, disk, previous);
    if p in entries && !Unchanged(p, disk, previous) {
      assert entries[p].ref in Uploads(entries, disk, previous);
    }
  }

  /** What is uploaded is the content of some file that was not passed over. */
  lemma UploadsExactly(candidates: seq<Path>, excluded: set<Path>, disk: Disk, previous: Entries, ref: Ref)
    ensures ref in Uploads(EntriesAgainst(candidates, excluded, disk, previous), disk, previous) <==>
              exists p :: p in candidates && p !in excluded && p in disk
                          && (p in previous ==> previous[p].stat != disk[p].stat) && disk[p].body == ref.content
  {
    var entries := EntriesAgainst(candidates, excluded, disk, previous);
    if p :| p in candidates && p !in excluded && p in disk
            && (p in previous ==> previous[p].stat != disk[p].stat) && disk[p].body == ref.content {
      QuickCheckExactly(candidates, excluded, disk, previous, p);
      assert entries[p].ref == ref;
    }
  }

  /** So nothing is uploaded when nothing changed, and no file need even be readable. */
  lemma NothingToUpload(candidates: seq<Path>, excluded: set<Path>, disk: Disk, previous: Entries)
    requires forall p :: p in candidates && p !in excluded && p in disk ==>
               p in previous && previous[p].stat == disk[p].stat
    ensures Uploads(EntriesAgainst(candidates, excluded, disk, previous), disk, previous) == {}
    ensures CanRead(candidates, excluded, disk, previous)
    ensures forall p :: p in EntriesAgainst(candidates, excluded, disk, previous) ==>
              EntriesAgainst(candidates, excluded, disk, previous)[p] == previous[p]
  {
  }

  /** A scan from nothing describes every kept file as it is. */
  lemma FullEntriesExactly(candidates: seq<Path>, excluded: set<Path>, disk: Disk, p: Path)
    ensures var full := FullEntries(candidates, excluded, disk);
            && (p in full <==> p in candidates && p !in excluded && p in disk)
            && (p in full ==> full[p].path == p && full[p].ref.content == disk[p].body && full[p].stat == disk[p].stat)
  {
  }

  /** Where a pass stops, if it does: at the first candidate that takes the total over
      the cap, or that has to be read and cannot be. */
  ghost predicate StopsAt(candidates: seq<Path>, excluded: set<Path>, disk: Disk, previous: Entries, cap: Option<nat>,
                          i: nat, tooLarge: bool) {
    && i < |candidates| && candidates[i] in disk && candidates[i] !in excluded
    && CanRead(candidates[..i], excluded, disk, previous)
    && (cap.Some? ==> TotalSize(candidates[..i], excluded, disk) <= cap.value)
    && var p := candidates[i];
    && var total := TotalSize(candidates[..i], excluded, disk) + disk[p].stat.size;
    && if tooLarge then cap.Some? && total > cap.value
       else
         && (cap.Some? ==> total <= cap.value)
         && !disk[p].readable && (p in previous ==> previous[p].stat != disk[p].stat)
  }

  lemma ScanStep(candidates: seq<Path>, excluded: set<Path>, disk: Disk, previous: Entries, i: nat)
    requires i < |candidates|
    ensures var p := candidates[i];
            var before, after := EntriesAgainst(candidates[..i], excluded, disk, previous),
                                 EntriesAgainst(candidates[..i + 1], excluded, disk, previous);
            if !Kept(p, excluded, disk) then after == before
            else if Unchanged(p, disk, previous) then
              after == before[p := previous[p]] && Uploads(after, disk, previous) == Uploads(before, disk, previous)
            else
              after == before[p := FreshEntry(p, disk)]
              && Uploads(after, disk, previous) == Uploads(before, disk, previous) + {Ref(disk[p].body)}
  {
    var p := candidates[i];
    var before, after := EntriesAgainst(candidates[..i], excluded, disk, previous),
                         EntriesAgainst(candidates[..i + 1], excluded, disk, previous);
    assert forall q :: q in candidates[..i + 1] <==> q in candidates[..i] || q == p;
    if Kept(p, excluded, disk) && !Unchanged(p, disk, previous) {
      assert after == before[p := FreshEntry(p, disk)];
      assert after[p].ref in Uploads(after, disk, previous);
      forall ref | ref in Uploads(before, disk, previous)
        ensures ref in Uploads(after, disk, previous)
      {
        var q :| q in before && !(q in disk && Unchanged(q, disk, previous)) && before[q].ref == ref;
        assert after[q].ref == ref;
      }
    } else if Kept(p, excluded, disk) {
      assert after == before[p := previous[p]];
      forall ref | ref in Uploads(before, disk, previous)
        ensures ref in Uploads(after, disk, previous)
      {
        var q :| q in before && !(q in disk && Unchanged(q, disk, previous)) && before[q].ref == ref;
        assert after[q].ref == ref;
      }
    }
  }

  /** Every file the pass has to read can be read. */
  predicate CanRead(candidates: seq<Path>, excluded: set<Path>, disk: Disk, previous: Entries) {
    forall p :: p in candidates && Kept(p, excluded, disk) && !Unchanged(p, disk, previous) ==> disk[p].readable
  }

  /** What a pass has gathered over the candidates `done`. */
  predicate SoFar(done: seq<Path>, excluded: set<Path>, disk: Disk, previous: Entries,
                  entries: Entries, bodies: map<Ref, Body>, total: nat) {
    && entries == EntriesAgainst(done, excluded, disk, previous)
    && bodies.Keys == Uploads(entries, disk, previous)
    && (forall ref :: ref in bodies ==> bodies[ref] == ref.content)
    && total == TotalSize(done, excluded, disk)
    && CanRead(done, excluded, disk, previous)
  }

  lemma CanReadStep(candidates: seq<Path>, excluded: set<Path>, disk: Disk, previous: Entries, i: nat)
    requires i < |candidates| && CanRead(candidates[..i], excluded, disk, previous)
    ensures var p := candidates[i];
            CanRead(candidates[..i + 1], excluded, disk, previous) <==>
              (Kept(p, excluded, disk) && !Unchanged(p, disk, previous) ==> disk[p].readable)
  {
    assert forall q :: q in candidates[..i + 1] <==> q in candidates[..i] || q == candidates[i];
  }

  /** One candidate more, left out, passed over or read. */
  lemma SoFarSkipped(candidates: seq<Path>, excluded: set<Path>, disk: Disk, previous: Entries, i: nat,
                     entries: Entries, bodies: map<Ref, Body>, total: nat)
    requires i < |candidates| && SoFar(candidates[..i], excluded, disk, previous, entries, bodies, total)
    requires !Kept(candidates[i], excluded, disk)
    ensures SoFar(candidates[..i + 1], excluded, disk, previous, entries, bodies, total)
  {
    assert candidates[..i + 1][..i] == candidates[..i];
    CanReadStep(candidates, excluded, disk, previous, i);
    ScanStep(candidates, excluded, disk, previous, i);
  }

  lemma SoFarPassedOver(candidates: seq<Path>, excluded: set<Path>, disk: Disk, previous: Entries, i: nat,
                        entries: Entries, bodies: map<Ref, Body>, total: nat)
    requires i < |candidates| && SoFar(candidates[..i], excluded, disk, previous, entries, bodies, total)
    requires var p := candidates[i]; Kept(p, excluded, disk) && Unchanged(p, disk, previous)
    ensures var p := candidates[i];
            SoFar(candidates[..i + 1], excluded, disk, previous, entries[p := previous[p]], bodies,
                  total + disk[p].stat.size)
  {
    assert candidates[..i + 1][..i] == candidates[..i];
    CanReadStep(candidates, excluded, disk, previous, i);
    ScanStep(candidates, excluded, disk, previous, i);
  }

  lemma SoFarRead(candidates: seq<Path>, excluded: set<Path>, disk: Disk, previous: Entries, i: nat,
                  entries: Entries, bodies: map<Ref, Body>, total: nat)
    requires i < |candidates| && SoFar(candidates[..i], excluded, disk, previous, entries, bodies, total)
    requires var p := candidates[i]; Kept(p, excluded, disk) && !Unchanged(p, disk, previous) && disk[p].readable
    ensures var p := candidates[i];
            SoFar(candidates[..i + 1], excluded, disk, previous, entries[p := FreshEntry(p, disk)],
                  bodies[Ref(disk[p].body) := disk[p].body], total + disk[p].stat.size)
  {
    assert candidates[..i + 1][..i] == candidates[..i];
    CanReadStep(candidates, excluded, disk, previous, i);
    ScanStep(candidates, excluded, disk, previous, i);
  }

  lemma SizeOfOneMore(candidates: seq<Path>, excluded: set<Path>, disk: Disk, i: nat)
    requires i < |candidates| && Kept(candidates[i], excluded, disk)
    ensures TotalSize(candidates[..i + 1], excluded, disk)
            == TotalSize(candidates[..i], excluded, disk) + disk[candidates[i]].stat.size
  {
    assert candidates[..i + 1][..i] == candidates[..i];
  }

  method Scan(candidates: seq<Path>, excluded: set<Path>, disk: Disk, previous: Entries, maxBytes: Option<nat>)
    returns (r: ScanOutcome)
    ensures r.Scanned? ==>
              && r.entries == EntriesAgainst(candidates, excluded, disk, previous)
              && r.bodies == (map ref | ref in Uploads(r.entries, disk, previous) :: ref.content)
              && r.bodies.Keys == Uploads(r.entries, disk, previous)
              && r.total == TotalSize(candidates, excluded, disk)
    ensures r.Scanned? <==>
              && CanRead(candidates, excluded, disk, previous)
              && (maxBytes.Some? ==> TotalSize(candidates, excluded, disk) <= maxBytes.value)
    ensures r.TooLarge? ==> maxBytes.Some? && TotalSize(candidates, excluded, disk) > maxBytes.value
    ensures r.ReadFailed? ==>
              && r.at in candidates && Kept(r.at, excluded, disk)
              && !Unchanged(r.at, disk, previous) && !disk[r.at].readable
    ensures !r.Scanned? ==>
              exists i: nat :: StopsAt(candidates, excluded, disk, previous, maxBytes, i, r.TooLarge?)
                               && candidates[i] == r.at
  {
    var entries: Entries, bodies: map<Ref, Body>, total: nat := map[], map[], 0;
    for i := 0 to |candidates|
      invariant SoFar(candidates[..i], excluded, disk, previous, entries, bodies, total)
      invariant !OverCap(total, maxBytes)
    {
      var p := candidates[i];
      if p in excluded || p !in disk {
        SoFarSkipped(candidates, excluded, disk, previous, i, entries, bodies, total);
        continue;
      }
      ghost var before := total;
      total := total + disk[p].stat.size;
      if OverCap(total, maxBytes) {
        SizeOfOneMore(candidates, excluded, disk, i);
        PrefixIsNoLarger(candidates, excluded, disk, i + 1);
        assert StopsAt(candidates, excluded, disk, previous, maxBytes, i, true);
        return TooLarge(p);
      }
      if Unchanged(p, disk, previous) {
        SoFarPassedOver(candidates, excluded, disk, previous, i, entries, bodies, before);
        entries := entries[p := previous[p]];
      } else {
        if !disk[p].readable {
          assert StopsAt(candidates, excluded, disk, previous, maxBytes, i, false);
          return ReadFailed(p);
        }
        SoFarRead(candidates, excluded, disk, previous, i, entries, bodies, before);
        var ref := Ref(disk[p].body);
        entries := entries[p := FileEntry(p, ref, disk[p].stat)];
        bodies := bodies[ref := disk[p].body];
      }
    }
    assert candidates[..|candidates|] == candidates;
    r := Scanned(entries, bodies, total);
  }

  // ------------------------------------------- incremental scan refines full scan

  /** Along the history, a content change always shows in size, mode or mtime. */
  ghost predicate Honest(disks: seq<Disk>) {
    forall i, j, p :: 0 <= i < |disks| && 0 <= j < |disks| && p in disks[i] && p in disks[j]
                      && disks[i][p].stat == disks[j][p].stat
                      ==> disks[i][p].body == disks[j][p].body
  }

  /** Every entry was once a correct description of its file. */
  ghost predicate Seen(entries: Entries, disks: seq<Disk>) {
    forall p :: p in entries ==> exists i :: 0 <= i < |disks| && p in disks[i] && entries[p] == FreshEntry(p, disks[i])
  }

  lemma IncrementalEqualsFull(candidates: seq<Path>, excluded: set<Path>, disks: seq<Disk>, previous: Entries)
    requires |disks| > 0 && Honest(disks) && Seen(previous, disks)
    ensures var disk := disks[|disks| - 1];
            EntriesAgainst(candidates, excluded, disk, previous) == FullEntries(candidates, excluded, disk)
            && Seen(FullEntries(candidates, excluded, disk), disks)
  {
    var disk := disks[|disks| - 1];
    forall p | p in candidates && Kept(p, excluded, disk) && Unchanged(p, disk, previous)
      ensures previous[p] == FreshEntry(p, disk)
    {
      var i :| 0 <= i < |disks| && p in disks[i] && previous[p] == FreshEntry(p, disks[i]);
      assert disks[i][p].body == disk[p].body;
    }
  }

  /** Exactly when one incremental scan agrees with the full one: every file the quick
      check lets through still is what its entry says. */
  lemma IncrementalEqualsFullExactly(candidates: seq<Path>, excluded: set<Path>, disk: Disk, previous: Entries)
    ensures EntriesAgainst(candidates, excluded, disk, previous) == FullEntries(candidates, excluded, disk) <==>
              forall p :: p in candidates && Kept(p, excluded, disk) && Unchanged(p, disk, previous) ==>
                previous[p] == FreshEntry(p, disk)
  {
    var fast, full := EntriesAgainst(candidates, excluded, disk, previous), FullEntries(candidates, excluded, disk);
    if fast == full {
      forall p | p in candidates && Kept(p, excluded, disk) && Unchanged(p, disk, previous)
        ensures previous[p] == FreshEntry(p, disk)
      {
        assert fast[p] == full[p];
      }
    }
  }

  /** A publisher's history, pass by pass: the disk, what the configuration and the
      options then made candidates and exclusions, and whether the pass completed. */
  datatype Pass = Pass(disk: Disk, candidates: seq<Path>, excluded: set<Path>, completed: bool)

  function Disks(passes: seq<Pass>): (disks: seq<Disk>)
    ensures |disks| == |passes| && forall i :: 0 <= i < |passes| ==> disks[i] == passes[i].disk
  {
    seq(|passes|, i requires 0 <= i < |passes| => passes[i].disk)
  }

  /** What pass `k` compares against: the entries of the last completed one. A pass that
      raised or was refused leaves the older entries. */
  function PreviousAt(passes: seq<Pass>, k: nat): Entries
    requires k <= |passes|
  {
    if k == 0 then map[]
    else
      var before, p := PreviousAt(passes, k - 1), passes[k - 1];
      if p.completed then EntriesAgainst(p.candidates, p.excluded, p.disk, before) else before
  }

  /** Over any honest history, with failed passes anywhere and files entering and
      leaving the candidates, the incremental scan finds exactly what a scan from
      nothing finds. */
  lemma {:induction false} IncrementalRefinesFullOverHistory(passes: seq<Pass>, k: nat)
    requires k < |passes| && Honest(Disks(passes))
    ensures var p := passes[k];
            EntriesAgainst(p.candidates, p.excluded, p.disk, PreviousAt(passes, k))
            == FullEntries(p.candidates, p.excluded, p.disk)
  {
    PreviousWasSeen(passes, k);
    IncrementalEqualsFull(passes[k].candidates, passes[k].excluded, Disks(passes)[..k + 1], PreviousAt(passes, k));
  }

  lemma {:induction false} PreviousWasSeen(passes: seq<Pass>, k: nat)
    requires k < |passes| && Honest(Disks(passes))
    ensures Seen(PreviousAt(passes, k), Disks(passes)[..k + 1])
  {
    if k > 0 {
      var p, disks := passes[k - 1], Disks(passes);
      PreviousWasSeen(passes, k - 1);
      IncrementalEqualsFull(p.candidates, p.excluded, disks[..k], PreviousAt(passes, k - 1));
      SeenGrows(PreviousAt(passes, k), disks[..k], disks[..k + 1]);
    }
  }

  lemma SeenGrows(entries: Entries, some: seq<Disk>, more: seq<Disk>)
    requires Seen(entries, some) && some <= more
    ensures Seen(entries, more)
  {
    forall p | p in entries
      ensures exists i :: 0 <= i < |more| && p in more[i] && entries[p] == FreshEntry(p, more[i])
    {
      var i :| 0 <= i < |some| && p in some[i] && entries[p] == FreshEntry(p, some[i]);
      assert more[i] == some[i];
    }
  }

  /** Honesty is needed: a same-length rewrite with its old mtime goes unseen. */
  lemma DishonestRewriteIsMissed()
    ensures var stat := Stat(1, 0, 0);
            var passes := [Pass(map["f" := DiskFile(stat, "a", true)], ["f"], {}, true),
                           Pass(map["f" := DiskFile(stat, "b", true)], ["f"], {}, true)];
            EntriesAgainst(["f"], {}, passes[1].disk, PreviousAt(passes, 1)) != FullEntries(["f"], {}, passes[1].disk)
  {
    var stat := Stat(1, 0, 0);
    var passes := [Pass(map["f" := DiskFile(stat, "a", true)], ["f"], {}, true),
                   Pass(map["f" := DiskFile(stat, "b", true)], ["f"], {}, true)];
    var previous := PreviousAt(passes, 1);
    assert previous == EntriesAgainst(["f"], {}, passes[0].disk, PreviousAt(passes, 0));
    assert previous["f"] == FileEntry("f", Ref("a"), stat);
    assert EntriesAgainst(["f"], {}, passes[1].disk, previous)["f"] == FileEntry("f", Ref("a"), stat);
    assert FullEntries(["f"], {}, passes[1].disk)["f"] == FileEntry("f", Ref("b"), stat);
  }
}
