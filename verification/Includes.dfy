/**
 Following a configuration's includes: a worklist over a graph that may be
 cyclic. Paths are absolute and canonical (no symbolic links).
 */
module Includes {
  import opened Sequences
  import opened Wrappers

  /** An absolute path, by its components. */
  datatype Path = Path(parts: seq<string>)

  datatype Tag = IncludeFile | IncludeDir

  /** What follows an include tag: a relative or an absolute path. */
  datatype Target = Target(absolute: bool, parts: seq<string>)

  datatype Include = Include(tag: Tag, target: Target)

  /** A path that can be visits either parses, giving its includes in document
      order, or does not (bad YAML, a directory, no permission), or is not text in the
      expected encoding, which makes the whole scan raise. */
  datatype Node = Parsed(includes: seq<Include>) | Unreadable | NotText

  /** `listing` holds, per directory, what the recursive `*.yaml` walk returns in order. */
  datatype Tree = Tree(nodes: map<Path, Node>, listing: map<Path, seq<Path>>)

  // ------------------------------------------------------------------- paths

  /** One component further. */
  function Into(base: seq<string>, part: string): seq<string> {
    if part == "" || part == "." then base
    else if part == ".." then (if base == [] then [] else base[..|base| - 1])
    else base + [part]
  }

  function Normalise(base: seq<string>, parts: seq<string>): Path
    decreases |parts|
  {
    if parts == [] then Path(base) else Normalise(Into(base, parts[0]), parts[1..])
  }

  /** An include resolves against the directory of the file that names it. */
  function Resolve(file: Path, target: Target): Path {
    if target.absolute || file.parts == [] then Normalise([], target.parts)
    else Normalise(file.parts[..|file.parts| - 1], target.parts)
  }

  predicate Within(base: Path, candidate: Path) {
    base.parts <= candidate.parts
  }

  // ------------------------------------------------------- where an include points

  /** Nothing but names: no empty component, no "." and no "..". */
  predicate Plain(parts: seq<string>) {
    forall i :: 0 <= i < |parts| ==> parts[i] !in {"", ".", ".."}
  }

  /** Following `a` and then `b` is following `a + b`. */
  lemma {:induction false} NormaliseAppend(base: seq<string>, a: seq<string>, b: seq<string>)
    ensures Normalise(base, a + b) == Normalise(Normalise(base, a).parts, b)
    decreases |a|
  {
    if a == [] {
      assert a + b == b;
    } else {
      assert (a + b)[1..] == a[1..] + b;
      NormaliseAppend(Into(base, a[0]), a[1..], b);
    }
  }

  lemma {:induction false} NormalisePlain(base: seq<string>, parts: seq<string>)
    requires Plain(parts)
    ensures Normalise(base, parts) == Path(base + parts)
    decreases |parts|
  {
    if parts != [] {
      assert Plain(parts[1..]);
      NormalisePlain(base + [parts[0]], parts[1..]);
      assert base + [parts[0]] + parts[1..] == base + parts;
    } else {
      assert base + parts == base;
    }
  }

  /** A plain relative include is looked for beside the file that names it, a plain
      absolute one where it says. */
  lemma PlainIncludeResolves(d: seq<string>, f: string, parts: seq<string>, file: Path)
    requires Plain(parts)
    ensures Resolve(Path(d + [f]), Target(false, parts)) == Path(d + parts)
    ensures Resolve(file, Target(true, parts)) == Path(parts)
  {
    assert (d + [f])[..|d + [f]| - 1] == d;
    NormalisePlain(d, parts);
    NormalisePlain([], parts);
    assert [] + parts == parts;
  }

  /** A longer include goes on from the directory the shorter one names. */
  lemma ResolveAppend(file: Path, absolute: bool, a: seq<string>, b: seq<string>, f: string)
    ensures Resolve(file, Target(absolute, a + b))
            == Resolve(Path(Resolve(file, Target(absolute, a)).parts + [f]), Target(false, b))
  {
    var start := if absolute || file.parts == [] then [] else file.parts[..|file.parts| - 1];
    var mid := Normalise(start, a).parts;
    NormaliseAppend(start, a, b);
    assert (mid + [f])[..|mid + [f]| - 1] == mid;
  }

  lemma StepBack(base: seq<string>, c: string)
    requires Plain([c])
    ensures Normalise(base, [c, ".."]) == Path(base)
  {
    assert [c][0] !in {"", ".", ".."};
    assert [c, ".."][1..] == [".."] && [".."][1..] == [];
    assert (base + [c])[..|base + [c]| - 1] == base;
    assert Normalise(base + [c], [".."]) == Path(base);
  }

  /** Components that lead back to where they start can be left out. */
  lemma Detour(file: Path, absolute: bool, a: seq<string>, x: seq<string>, b: seq<string>)
    requires var mid := Resolve(file, Target(absolute, a)).parts;
             Normalise(mid, x) == Path(mid)
    ensures Resolve(file, Target(absolute, a + x + b)) == Resolve(file, Target(absolute, a + b))
  {
    var start := if absolute || file.parts == [] then [] else file.parts[..|file.parts| - 1];
    NormaliseAppend(start, a + x, b);
    NormaliseAppend(start, a, x);
    NormaliseAppend(start, a, b);
  }

  /** Empty components and "." mean nothing, a name followed by ".." cancels, and above the
      root there is only the root. An absolute include is the same from every file. */
  lemma ComponentLaws(file: Path, other: Path, absolute: bool, a: seq<string>, c: string, b: seq<string>)
    ensures Resolve(file, Target(absolute, a + [""] + b)) == Resolve(file, Target(absolute, a + b))
    ensures Resolve(file, Target(absolute, a + ["."] + b)) == Resolve(file, Target(absolute, a + b))
    ensures Plain([c]) ==> Resolve(file, Target(absolute, a + [c, ".."] + b)) == Resolve(file, Target(absolute, a + b))
    ensures Resolve(file, Target(true, [".."] + b)) == Resolve(file, Target(true, b))
    ensures Resolve(file, Target(true, a)) == Resolve(other, Target(true, a))
  {
    var mid := Resolve(file, Target(absolute, a)).parts;
    assert [""][1..] == [] && ["."][1..] == [];
    Detour(file, absolute, a, [""], b);
    Detour(file, absolute, a, ["."], b);
    if Plain([c]) {
      StepBack(mid, c);
      Detour(file, absolute, a, [c, ".."], b);
    }
    assert ([".."] + b)[1..] == b;
  }

  datatype Name = Relative(parts: seq<string>) | Absolute(path: Path)

  /** Path relative to the config directory, or absolute outside it. */
  function Rel(base: Path, path: Path): Name {
    if Within(base, path) then Relative(path.parts[|base.parts|..]) else Absolute(path)
  }

  predicate Hidden(part: string) {
    |part| > 0 && part[0] == '.'
  }

  /** No component below the included directory starts with a dot. */
  predicate Visible(dir: Path, found: Path) {
    forall i :: |dir.parts| <= i < |found.parts| ==> !Hidden(found.parts[i])
  }

  // ----------------------------------------------------------- specification

  /** The files one include leads to. */
  function Leads(t: Tree, base: Path, file: Path, inc: Include): set<Path> {
    var target := Resolve(file, inc.target);
    if !Within(base, target) then {}
    else if inc.tag == IncludeFile then {target}
    else if target !in t.listing then {}
    else set p | p in t.listing[target] && Visible(target, p)
  }

  function IncludesOf(t: Tree, file: Path): seq<Include> {
    if file in t.nodes && t.nodes[file].Parsed? then t.nodes[file].includes else []
  }

  /** Everything a file leads to: none if it is missing or unreadable. */
  function Successors(t: Tree, base: Path, file: Path): set<Path> {
    set inc, p | inc in IncludesOf(t, file) && p in Leads(t, base, file, inc) :: p
  }

  predicate Edge(t: Tree, base: Path, a: Path, b: Path) {
    b in Successors(t, base, a)
  }

  ghost predicate Trail(t: Tree, base: Path, root: Path, trail: seq<Path>) {
    |trail| > 0 && trail[0] == root && forall i :: 0 <= i < |trail| - 1 ==> Edge(t, base, trail[i], trail[i + 1])
  }

  ghost predicate Reachable(t: Tree, base: Path, root: Path, p: Path) {
    exists trail :: Trail(t, base, root, trail) && trail[|trail| - 1] == p
  }

  lemma TrailExtends(t: Tree, base: Path, root: Path, a: Path, b: Path)
    requires Reachable(t, base, root, a) && Edge(t, base, a, b)
    ensures Reachable(t, base, root, b)
  {
    var trail :| Trail(t, base, root, trail) && trail[|trail| - 1] == a;
    assert Trail(t, base, root, trail + [b]);
    assert (trail + [b])[|trail + [b]| - 1] == b;
  }

  /** A set holding the root and closed under `Edge` holds everything reachable. */
  lemma {:induction false} ClosedHoldsTrail(t: Tree, base: Path, root: Path, trail: seq<Path>,
                                            closed: set<Path>, i: nat)
    requires Trail(t, base, root, trail) && i < |trail| && root in closed
    requires forall a, b :: a in closed && Edge(t, base, a, b) ==> b in closed
    ensures trail[i] in closed
  {
    if i > 0 {
      ClosedHoldsTrail(t, base, root, trail, closed, i - 1);
      assert Edge(t, base, trail[i - 1], trail[i]);
    }
  }

  // What one include of one file reports.

  /** The in-tree targets a list of includes names. */
  function PathsOf(base: Path, file: Path, incs: seq<Include>): set<Name> {
    set inc | inc in incs && Within(base, Resolve(file, inc.target)) :: Rel(base, Resolve(file, inc.target))
  }

  function OutsideOf(base: Path, file: Path, inc: Include): seq<(Name, Path)> {
    var target := Resolve(file, inc.target);
    if Within(base, target) then [] else [(Rel(base, file), target)]
  }

  function MissingDirOf(t: Tree, base: Path, file: Path, inc: Include): seq<(Name, Path)> {
    var target := Resolve(file, inc.target);
    if Within(base, target) && inc.tag == IncludeDir && target !in t.listing then [(Rel(base, file), target)] else []
  }

  /** What one include pushes. */
  function PushOf(t: Tree, base: Path, file: Path, inc: Include): seq<Path> {
    var target := Resolve(file, inc.target);
    if !Within(base, target) then []
    else if inc.tag == IncludeFile then [target]
    else if target !in t.listing then []
    else VisibleIn(target, t.listing[target])
  }

  /** Everything a list of includes pushes, in order. */
  function Pushes(t: Tree, base: Path, file: Path, incs: seq<Include>): seq<Path> {
    if incs == [] then []
    else Pushes(t, base, file, incs[..|incs| - 1]) + PushOf(t, base, file, incs[|incs| - 1])
  }

  function VisibleIn(dir: Path, found: seq<Path>): (r: seq<Path>)
    ensures forall p :: p in r <==> p in found && Visible(dir, p)
  {
    if found == [] then []
    else
      VisibleIn(dir, found[..|found| - 1])
      + if Visible(dir, found[|found| - 1]) then [found[|found| - 1]] else []
  }

  function Outsides(base: Path, file: Path, incs: seq<Include>): seq<(Name, Path)> {
    if incs == [] then []
    else Outsides(base, file, incs[..|incs| - 1]) + OutsideOf(base, file, incs[|incs| - 1])
  }

  function MissingDirs(t: Tree, base: Path, file: Path, incs: seq<Include>): seq<(Name, Path)> {
    if incs == [] then []
    else MissingDirs(t, base, file, incs[..|incs| - 1]) + MissingDirOf(t, base, file, incs[|incs| - 1])
  }

  /** The report over a whole visiting order. */
  function OutsideReport(t: Tree, base: Path, visits: seq<Path>): seq<(Name, Path)> {
    if visits == [] then []
    else
      var file := visits[|visits| - 1];
      OutsideReport(t, base, visits[..|visits| - 1]) + Outsides(base, file, IncludesOf(t, file))
  }

  function MissingReport(t: Tree, base: Path, visits: seq<Path>): seq<(Name, Path)> {
    if visits == [] then []
    else
      var file := visits[|visits| - 1];
      MissingReport(t, base, visits[..|visits| - 1])
      + if file !in t.nodes then [(Rel(base, file), file)] else MissingDirs(t, base, file, IncludesOf(t, file))
  }

  function UnreadableReport(t: Tree, base: Path, visits: seq<Path>): seq<Name> {
    if visits == [] then []
    else
      var file := visits[|visits| - 1];
      UnreadableReport(t, base, visits[..|visits| - 1])
      + if file in t.nodes && t.nodes[file].Unreadable? then [Rel(base, file)] else []
  }

  datatype Report = Report(
    paths: set<Name>,
    outside: seq<(Name, Path)>,
    missing: seq<(Name, Path)>,
    unreadable: seq<Name>)

  /** Every path any include can lead to: finite, and it bounds the scan. */
  function Universe(t: Tree, base: Path, root: Path): set<Path> {
    {root} + set file, p | file in t.nodes && p in Successors(t, base, file) :: p
  }

  lemma PushesAreLed(t: Tree, base: Path, file: Path, incs: seq<Include>)
    ensures forall p :: p in Pushes(t, base, file, incs) <==>
              exists inc :: inc in incs && p in Leads(t, base, file, inc)
  {
    if incs != [] {
      var front, last := incs[..|incs| - 1], incs[|incs| - 1];
      PushesAreLed(t, base, file, front);
      assert incs == front + [last];
      assert forall inc :: inc in incs <==> inc in front || inc == last;
      assert forall p :: p in Pushes(t, base, file, incs) <==>
                           p in Pushes(t, base, file, front) || p in Leads(t, base, file, last);
    }
  }

  lemma OutsidesExact(base: Path, file: Path, incs: seq<Include>)
    ensures forall o :: o in Outsides(base, file, incs) <==>
              exists inc :: inc in incs && !Within(base, Resolve(file, inc.target))
                && o == (Rel(base, file), Resolve(file, inc.target))
  {
    if incs != [] {
      var front, last := incs[..|incs| - 1], incs[|incs| - 1];
      OutsidesExact(base, file, front);
      assert incs == front + [last];
      assert forall inc :: inc in incs <==> inc in front || inc == last;
    }
  }

  /** Every escaping reference of a file that was opened is reported, and nothing else is. */
  lemma OutsideReportExact(t: Tree, base: Path, visits: seq<Path>)
    ensures forall o :: o in OutsideReport(t, base, visits) <==>
              exists file, inc :: file in visits && inc in IncludesOf(t, file)
                && !Within(base, Resolve(file, inc.target)) && o == (Rel(base, file), Resolve(file, inc.target))
  {
    if visits != [] {
      var front, last := visits[..|visits| - 1], visits[|visits| - 1];
      OutsideReportExact(t, base, front);
      OutsidesExact(base, last, IncludesOf(t, last));
      assert visits == front + [last];
      assert forall file :: file in visits <==> file in front || file == last;
    }
  }

  lemma MissingDirsExact(t: Tree, base: Path, file: Path, incs: seq<Include>)
    ensures forall m :: m in MissingDirs(t, base, file, incs) <==>
              exists inc :: inc in incs && LacksDir(t, base, file, inc)
                && m == (Rel(base, file), Resolve(file, inc.target))
  {
    if incs != [] {
      var front, last := incs[..|incs| - 1], incs[|incs| - 1];
      MissingDirsExact(t, base, file, front);
      assert incs == front + [last];
      assert forall inc :: inc in incs <==> inc in front || inc == last;
    }
  }

  /** An in-tree directory include whose directory is not there. */
  predicate LacksDir(t: Tree, base: Path, file: Path, inc: Include) {
    Within(base, Resolve(file, inc.target)) && inc.tag == IncludeDir && Resolve(file, inc.target) !in t.listing
  }

  predicate MissingFrom(t: Tree, base: Path, file: Path, m: (Name, Path)) {
    || (file !in t.nodes && m == (Rel(base, file), file))
    || exists inc :: inc in IncludesOf(t, file) && LacksDir(t, base, file, inc)
         && m == (Rel(base, file), Resolve(file, inc.target))
  }

  /** Missing is reported for exactly the absent files and the absent directories. */
  lemma MissingReportExact(t: Tree, base: Path, visits: seq<Path>)
    ensures forall m :: m in MissingReport(t, base, visits) <==>
              exists file :: file in visits && MissingFrom(t, base, file, m)
  {
    if visits != [] {
      var front, last := visits[..|visits| - 1], visits[|visits| - 1];
      MissingReportExact(t, base, front);
      MissingDirsExact(t, base, last, IncludesOf(t, last));
      assert visits == front + [last];
      assert forall file :: file in visits <==> file in front || file == last;
      assert forall m :: m in MissingReport(t, base, visits) <==>
                           m in MissingReport(t, base, front) || MissingFrom(t, base, last, m);
    }
  }

  lemma UnreadableReportExact(t: Tree, base: Path, visits: seq<Path>)
    ensures forall n :: n in UnreadableReport(t, base, visits) <==>
              exists file :: file in visits && file in t.nodes && t.nodes[file].Unreadable? && n == Rel(base, file)
  {
    if visits != [] {
      var front, last := visits[..|visits| - 1], visits[|visits| - 1];
      UnreadableReportExact(t, base, front);
      assert visits == front + [last];
      assert forall file :: file in visits <==> file in front || file == last;
    }
  }

  // -------------------------------------------------------------- the worklist

  /** What recording a list of includes adds to a report. */
  function Collected(t: Tree, base: Path, file: Path, incs: seq<Include>, before: Report): Report {
    Report(before.paths + PathsOf(base, file, incs), before.outside + Outsides(base, file, incs),
           before.missing + MissingDirs(t, base, file, incs), before.unreadable)
  }

  /** What recording one include adds to a report. */
  function CollectedOne(t: Tree, base: Path, file: Path, inc: Include, before: Report): Report {
    var target := Resolve(file, inc.target);
    Report(before.paths + (if Within(base, target) then {Rel(base, target)} else {}),
           before.outside + OutsideOf(base, file, inc),
           before.missing + MissingDirOf(t, base, file, inc), before.unreadable)
  }

  lemma CollectStep(t: Tree, base: Path, file: Path, incs: seq<Include>, inc: Include, before: Report)
    ensures Collected(t, base, file, incs + [inc], before)
            == CollectedOne(t, base, file, inc, Collected(t, base, file, incs, before))
  {
    assert (incs + [inc])[..|incs|] == incs;
    assert forall x :: x in incs + [inc] <==> x in incs || x == inc;
    var target := Resolve(file, inc.target);
    assert PathsOf(base, file, incs + [inc])
           == PathsOf(base, file, incs) + if Within(base, target) then {Rel(base, target)} else {};
  }

  /** Skip anything below a dotted component. */
  method Walk(dir: Path, found: seq<Path>) returns (walked: seq<Path>)
    ensures walked == VisibleIn(dir, found)
  {
    walked := [];
    for j := 0 to |found|
      invariant walked == VisibleIn(dir, found[..j])
    {
      assert found[..j + 1][..j] == found[..j];
      if Visible(dir, found[j]) {
        walked := walked + [found[j]];
      }
    }
    assert found[..|found|] == found;
  }

  /** Record one include; what it answers is to be pushed. */
  method CollectOne(t: Tree, base: Path, file: Path, inc: Include, before: Report)
    returns (report: Report, push: seq<Path>)
    ensures report == CollectedOne(t, base, file, inc, before) && push == PushOf(t, base, file, inc)
  {
    report, push := before, [];
    var target := Resolve(file, inc.target);
    if !Within(base, target) {
      report := report.(outside := report.outside + [(Rel(base, file), target)]);
      return;
    }
    report := report.(paths := report.paths + {Rel(base, target)});
    if inc.tag == IncludeFile {
      push := [target];
    } else if target !in t.listing {
      report := report.(missing := report.missing + [(Rel(base, file), target)]);
    } else {
      push := Walk(target, t.listing[target]);
    }
  }

  method Collect(t: Tree, base: Path, file: Path, incs: seq<Include>, before: Report)
    returns (report: Report, push: seq<Path>)
    ensures report == Collected(t, base, file, incs, before)
    ensures push == Pushes(t, base, file, incs)
  {
    report, push := before, [];
    for i := 0 to |incs|
      invariant report == Collected(t, base, file, incs[..i], before)
      invariant push == Pushes(t, base, file, incs[..i])
    {
      assert incs[..i + 1] == incs[..i] + [incs[i]] && incs[..i + 1][..i] == incs[..i];
      CollectStep(t, base, file, incs[..i], incs[i], before);
      var found;
      report, found := CollectOne(t, base, file, incs[i], report);
      push := push + found;
    }
    assert incs[..|incs|] == incs;
  }

  /** What holds between two turns of the loop. */
  ghost predicate Progress(t: Tree, base: Path, root: Path, seen: set<Path>, queue: seq<Path>, universe: set<Path>) {
    && seen <= universe
    && (forall p :: p in queue ==> p in universe)
    && (forall p :: p in seen || p in queue ==> Reachable(t, base, root, p))
    && (root in seen || root in queue)
    && (forall a, b :: a in seen && Edge(t, base, a, b) ==> b in seen || b in queue)
  }

  lemma ProgressStep(t: Tree, base: Path, root: Path, seen: set<Path>, queue: seq<Path>, push: seq<Path>,
                     universe: set<Path>)
    requires queue != [] && Progress(t, base, root, seen, queue, universe) && universe == Universe(t, base, root)
    requires forall p :: p in push <==> p in Successors(t, base, queue[|queue| - 1])
    ensures var current, rest := queue[|queue| - 1], queue[..|queue| - 1];
            current in universe && Progress(t, base, root, seen + {current}, rest + push, universe)
  {
    var current, rest := queue[|queue| - 1], queue[..|queue| - 1];
    assert queue == rest + [current];
    assert forall p :: p in queue <==> p in rest || p == current;
    forall p | p in push
      ensures p in universe && Reachable(t, base, root, p)
    {
      TrailExtends(t, base, root, current, p);
      assert current in t.nodes;
    }
  }

  lemma ProgressSkip(t: Tree, base: Path, root: Path, seen: set<Path>, queue: seq<Path>, universe: set<Path>)
    requires queue != [] && Progress(t, base, root, seen, queue, universe) && queue[|queue| - 1] in seen
    ensures Progress(t, base, root, seen, queue[..|queue| - 1], universe)
  {
    assert queue == queue[..|queue| - 1] + [queue[|queue| - 1]];
  }

  lemma ProgressDone(t: Tree, base: Path, root: Path, seen: set<Path>, universe: set<Path>)
    requires Progress(t, base, root, seen, [], universe)
    ensures forall p :: p in seen <==> Reachable(t, base, root, p)
  {
    forall p | Reachable(t, base, root, p)
      ensures p in seen
    {
      var trail :| Trail(t, base, root, trail) && trail[|trail| - 1] == p;
      ClosedHoldsTrail(t, base, root, trail, seen, |trail| - 1);
    }
  }

  function AllPaths(t: Tree, base: Path, files: set<Path>): set<Name> {
    set file, name | file in files && name in PathsOf(base, file, IncludesOf(t, file)) :: name
  }

  /** The report a visiting order calls for. */
  function ReportOf(t: Tree, base: Path, visits: seq<Path>): Report {
    Report(AllPaths(t, base, set p | p in visits), OutsideReport(t, base, visits),
           MissingReport(t, base, visits), UnreadableReport(t, base, visits))
  }

  predicate Raises(t: Tree, file: Path) {
    file in t.nodes && t.nodes[file].NotText?
  }

  /** What opening one file adds to a report. */
  function Opened(t: Tree, base: Path, file: Path, before: Report): Report
    requires !Raises(t, file)
  {
    if file !in t.nodes then before.(missing := before.missing + [(Rel(base, file), file)])
    else if t.nodes[file].Unreadable? then before.(unreadable := before.unreadable + [Rel(base, file)])
    else Collected(t, base, file, IncludesOf(t, file), before)
  }

  lemma ReportStep(t: Tree, base: Path, visits: seq<Path>, file: Path)
    requires !Raises(t, file)
    ensures ReportOf(t, base, visits + [file]) == Opened(t, base, file, ReportOf(t, base, visits))
  {
    assert (visits + [file])[..|visits|] == visits;
    assert (set p | p in visits + [file]) == (set p | p in visits) + {file};
    assert AllPaths(t, base, (set p | p in visits) + {file})
           == AllPaths(t, base, set p | p in visits) + PathsOf(base, file, IncludesOf(t, file));
  }

  method Open(t: Tree, base: Path, file: Path, before: Report) returns (report: Report, push: seq<Path>)
    requires !Raises(t, file)
    ensures report == Opened(t, base, file, before)
    ensures forall p :: p in push <==> p in Successors(t, base, file)
  {
    if file !in t.nodes {
      return before.(missing := before.missing + [(Rel(base, file), file)]), [];
    }
    match t.nodes[file] {
      case Unreadable =>
        return before.(unreadable := before.unreadable + [Rel(base, file)]), [];
      case Parsed(includes) =>
        report, push := Collect(t, base, file, includes, before);
        PushesAreLed(t, base, file, includes);
    }
  }

  lemma Shrinks(universe: set<Path>, seen: set<Path>, p: Path)
    requires p in universe && p !in seen
    ensures |universe - (seen + {p})| < |universe - seen|
  {
    assert universe - seen == universe - (seen + {p}) + {p};
  }

  lemma RootReachable(t: Tree, base: Path, root: Path)
    ensures Reachable(t, base, root, root)
  {
    assert Trail(t, base, root, [root]);
  }

  /** Reported exactly for the reachable files: the in-tree targets, the escaping
      ones, what is missing, and what could not be read. */
  ghost predicate Exact(t: Tree, base: Path, root: Path, r: Report) {
    && (forall n :: n in r.paths <==>
          exists file, inc :: Reachable(t, base, root, file) && inc in IncludesOf(t, file)
            && Within(base, Resolve(file, inc.target)) && n == Rel(base, Resolve(file, inc.target)))
    && (forall o :: o in r.outside <==>
          exists file, inc :: Reachable(t, base, root, file) && inc in IncludesOf(t, file)
            && !Within(base, Resolve(file, inc.target)) && o == (Rel(base, file), Resolve(file, inc.target)))
    && (forall m :: m in r.missing <==> exists file :: Reachable(t, base, root, file) && MissingFrom(t, base, file, m))
    && (forall n :: n in r.unreadable <==>
          exists file :: Reachable(t, base, root, file) && file in t.nodes && t.nodes[file].Unreadable?
            && n == Rel(base, file))
  }

  lemma PathsExact(t: Tree, base: Path, root: Path, files: set<Path>)
    requires forall p :: p in files <==> Reachable(t, base, root, p)
    ensures forall n :: n in AllPaths(t, base, files) <==>
              exists file, inc :: Reachable(t, base, root, file) && inc in IncludesOf(t, file)
                && Within(base, Resolve(file, inc.target)) && n == Rel(base, Resolve(file, inc.target))
  {
    forall n
      ensures n in AllPaths(t, base, files) <==>
              exists file, inc :: Reachable(t, base, root, file) && inc in IncludesOf(t, file)
                && Within(base, Resolve(file, inc.target)) && n == Rel(base, Resolve(file, inc.target))
    {
      if file, inc :| Reachable(t, base, root, file) && inc in IncludesOf(t, file)
                      && Within(base, Resolve(file, inc.target)) && n == Rel(base, Resolve(file, inc.target)) {
        assert file in files && n in PathsOf(base, file, IncludesOf(t, file));
      }
    }
  }

  /** The closure, end to end: any order that visits exactly the reachable files
      calls for an exact report. */
  lemma ReportExact(t: Tree, base: Path, root: Path, visits: seq<Path>)
    requires forall p :: p in visits <==> Reachable(t, base, root, p)
    ensures Exact(t, base, root, ReportOf(t, base, visits))
  {
    OutsideReportExact(t, base, visits);
    MissingReportExact(t, base, visits);
    UnreadableReportExact(t, base, visits);
    PathsExact(t, base, root, set p | p in visits);
  }

  /** In the configuration, a plain relative include has a relative name. */
  lemma PlainIncludeIsNamed(base: Path, d: seq<string>, f: string, parts: seq<string>)
    requires Plain(parts)
    ensures var target := Resolve(Path(base.parts + d + [f]), Target(false, parts));
            target == Path(base.parts + d + parts) && Within(base, target) && Rel(base, target) == Relative(d + parts)
  {
    PlainIncludeResolves(base.parts + d, f, parts, base);
    var target := Path(base.parts + d + parts);
    assert target.parts == base.parts + (d + parts);
    assert target.parts[..|base.parts|] == base.parts && target.parts[|base.parts|..] == d + parts;
  }

  /** It leads to the file it names, or to what a directory holds outside dotted components. */
  lemma PlainIncludeLeads(t: Tree, base: Path, d: seq<string>, f: string, tag: Tag, parts: seq<string>)
    requires Plain(parts)
    ensures var found := Leads(t, base, Path(base.parts + d + [f]), Include(tag, Target(false, parts)));
            var target := Path(base.parts + d + parts);
            if tag == IncludeFile then found == {target}
            else forall p :: p in found <==>
                   target in t.listing && p in t.listing[target]
                   && forall i :: |target.parts| <= i < |p.parts| ==> p.parts[i] == "" || p.parts[i][0] != '.'
  {
    PlainIncludeIsNamed(base, d, f, parts);
  }

  lemma LeadsAreReachable(t: Tree, base: Path, root: Path, file: Path, inc: Include)
    requires Reachable(t, base, root, file) && inc in IncludesOf(t, file)
    ensures forall p :: p in Leads(t, base, file, inc) ==> Reachable(t, base, root, p)
  {
    forall p | p in Leads(t, base, file, inc)
      ensures Reachable(t, base, root, p)
    {
      assert Edge(t, base, file, p);
      TrailExtends(t, base, root, file, p);
    }
  }

  /** What it comes to: a plain relative include in a reachable file of the configuration
      is replicated under its relative name, and what it names is followed -- the file
      itself, or what a directory holds outside dotted components. */
  lemma PlainIncludeIsFollowed(t: Tree, base: Path, root: Path, r: Report, d: seq<string>, f: string,
                               tag: Tag, parts: seq<string>)
    requires Exact(t, base, root, r) && Reachable(t, base, root, Path(base.parts + d + [f]))
    requires Plain(parts) && Include(tag, Target(false, parts)) in IncludesOf(t, Path(base.parts + d + [f]))
    ensures Relative(d + parts) in r.paths
    ensures tag == IncludeFile ==> Reachable(t, base, root, Path(base.parts + d + parts))
    ensures var dir := Path(base.parts + d + parts);
            tag == IncludeDir && dir in t.listing ==>
              forall p :: p in t.listing[dir]
                          && (forall i :: |dir.parts| <= i < |p.parts| ==> p.parts[i] == "" || p.parts[i][0] != '.')
                          ==> Reachable(t, base, root, p)
  {
    var file, inc := Path(base.parts + d + [f]), Include(tag, Target(false, parts));
    PlainIncludeIsNamed(base, d, f, parts);
    PlainIncludeLeads(t, base, d, f, tag, parts);
    LeadsAreReachable(t, base, root, file, inc);
  }

  /** An include that resolves outside the configuration is reported with its file, and
      nothing is followed from it. */
  lemma EscapingIncludeIsReported(t: Tree, base: Path, root: Path, r: Report, d: seq<string>, tag: Tag,
                                  parts: seq<string>)
    requires Exact(t, base, root, r) && Reachable(t, base, root, Path(base.parts + d))
    requires Include(tag, Target(true, parts)) in IncludesOf(t, Path(base.parts + d))
    requires Plain(parts) && !(base.parts <= parts)
    ensures (Relative(d), Path(parts)) in r.outside
    ensures Leads(t, base, Path(base.parts + d), Include(tag, Target(true, parts))) == {}
  {
    var file, inc := Path(base.parts + d), Include(tag, Target(true, parts));
    PlainIncludeResolves([], "", parts, file);
    assert file.parts[..|base.parts|] == base.parts && file.parts[|base.parts|..] == d;
    assert Rel(base, file) == Relative(d) && !Within(base, Resolve(file, inc.target));
  }

  /** What holds between two turns of the whole loop. */
  ghost predicate Turn(t: Tree, base: Path, root: Path, seen: set<Path>, queue: seq<Path>, visits: seq<Path>,
                       report: Report) {
    && Progress(t, base, root, seen, queue, Universe(t, base, root))
    && NoDuplicates(visits) && (forall p :: p in seen <==> p in visits)
    && (forall p :: p in seen ==> !Raises(t, p))
    && report == ReportOf(t, base, visits)
  }

  lemma TurnStep(t: Tree, base: Path, root: Path, seen: set<Path>, queue: seq<Path>, visits: seq<Path>, report: Report,
                 push: seq<Path>)
    requires queue != [] && Turn(t, base, root, seen, queue, visits, report)
    requires queue[|queue| - 1] !in seen && !Raises(t, queue[|queue| - 1])
    requires forall p :: p in push <==> p in Successors(t, base, queue[|queue| - 1])
    ensures var current, universe := queue[|queue| - 1], Universe(t, base, root);
            && Turn(t, base, root, seen + {current}, queue[..|queue| - 1] + push, visits + [current],
                    Opened(t, base, current, report))
            && |universe - (seen + {current})| < |universe - seen|
  {
    var current := queue[|queue| - 1];
    ReportStep(t, base, visits, current);
    ProgressStep(t, base, root, seen, queue, push, Universe(t, base, root));
    Shrinks(Universe(t, base, root), seen, current);
  }

  lemma TurnFirst(t: Tree, base: Path, root: Path)
    ensures Turn(t, base, root, {}, [root], [], Report({}, [], [], []))
  {
    RootReachable(t, base, root);
  }

  lemma TurnSkip(t: Tree, base: Path, root: Path, seen: set<Path>, queue: seq<Path>, visits: seq<Path>, report: Report)
    requires queue != [] && Turn(t, base, root, seen, queue, visits, report) && queue[|queue| - 1] in seen
    ensures Turn(t, base, root, seen, queue[..|queue| - 1], visits, report)
  {
    ProgressSkip(t, base, root, seen, queue, Universe(t, base, root));
  }

  lemma TurnDone(t: Tree, base: Path, root: Path, seen: set<Path>, visits: seq<Path>, report: Report)
    requires Turn(t, base, root, seen, [], visits, report)
    ensures forall p :: p in visits <==> Reachable(t, base, root, p)
    ensures !exists p :: Reachable(t, base, root, p) && Raises(t, p)
    ensures Exact(t, base, root, report)
  {
    ProgressDone(t, base, root, seen, Universe(t, base, root));
    ReportExact(t, base, root, visits);
  }

  /** `visits` is the order in which files were opened: none twice. The scan raises
      (answers None) exactly when some reachable file is not text; otherwise it opened
      each reachable file, and the report is exact and is what that order calls for. */
  method Scan(t: Tree, base: Path, root: Path) returns (report: Option<Report>, ghost visits: seq<Path>)
    ensures NoDuplicates(visits)
    ensures report == None <==> exists p :: Reachable(t, base, root, p) && Raises(t, p)
    ensures report.Some? ==>
              && (forall p :: p in visits <==> Reachable(t, base, root, p))
              && report.value == ReportOf(t, base, visits)
              && Exact(t, base, root, report.value)
  {
    var result := Report({}, [], [], []);
    visits := [];
    var queue, seen := [root], {};
    TurnFirst(t, base, root);
    while queue != []
      invariant Turn(t, base, root, seen, queue, visits, result)
      decreases |Universe(t, base, root) - seen|, |queue|
    {
      var current := queue[|queue| - 1];
      if current in seen {
        TurnSkip(t, base, root, seen, queue, visits, result);
        queue := queue[..|queue| - 1];
        continue;
      }
      if current in t.nodes && t.nodes[current].NotText? {
        return None, visits;
      }
      ghost var before := result;
      var push;
      result, push := Open(t, base, current, result);
      TurnStep(t, base, root, seen, queue, visits, before, push);
      seen, visits, queue := seen + {current}, visits + [current], queue[..|queue| - 1] + push;
    }
    TurnDone(t, base, root, seen, visits, result);
    report := Some(result);
  }
}
