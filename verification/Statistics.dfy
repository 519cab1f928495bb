/**
 Long-term statistics replication: rows travel under their statistic's stable
 name and are re-attached on arrival to whatever numeric id the receiving
 database uses.

 A database is two tables with unique keys: metadata by statistic id, and rows
 by (metadata id, start time).
 */
module Statistics {
  type StatId = string
  type Reading = string  // the remaining columns of a row
  type Info = string     // the remaining columns of a metadata record

  datatype Meta = Meta(id: nat, info: Info)

  datatype Key = Key(metadataId: nat, start: real)

  type VersionNumber = n: nat | 0 < n witness 1

  /** A recorder's schema table: its newest version, or none that can be read. */
  datatype SchemaTable = Version(version: VersionNumber) | NoVersion

  /** What a database answers for its version: 0 when it cannot be established. */
  function SchemaVersion(schema: SchemaTable): nat {
    if schema.Version? then schema.version else 0
  }

  /** `nextId` is the numeric id the database gives its next metadata row. */
  datatype Db = Db(schema: SchemaTable, nextId: nat, meta: map<StatId, Meta>, rows: map<Key, Reading>)

  datatype Row = Row(stat: StatId, start: real, reading: Reading)

  datatype MetaRow = MetaRow(stat: StatId, info: Info)

  datatype Payload = Payload(schema: nat, meta: seq<MetaRow>, rows: seq<Row>, watermark: real, coversFrom: real)

  /** Numeric ids are unique, and none is handed out twice. */
  predicate Valid(db: Db) {
    && (forall s :: s in db.meta ==> db.meta[s].id < db.nextId)
    && (forall k :: k in db.rows ==> k.metadataId < db.nextId)
    && (forall a, b :: a in db.meta && b in db.meta && db.meta[a].id == db.meta[b].id ==> a == b)
  }

  // What a database says by name, whatever its numeric ids are.

  predicate Has(db: Db, stat: StatId, start: real) {
    stat in db.meta && Key(db.meta[stat].id, start) in db.rows
  }

  function ReadingOf(db: Db, stat: StatId, start: real): Reading
    requires Has(db, stat, start)
  {
    db.rows[Key(db.meta[stat].id, start)]
  }

  // ------------------------------------------------------------------ export

  predicate Carries(rows: seq<Row>, stat: StatId, start: real) {
    exists i :: 0 <= i < |rows| && rows[i].stat == stat && rows[i].start == start
  }

  predicate Describes(meta: seq<MetaRow>, stat: StatId) {
    exists i :: 0 <= i < |meta| && meta[i].stat == stat
  }

  /** No row, and no statistic's record, is carried twice. */
  predicate EachOnce(rows: seq<Row>) {
    forall i, j :: 0 <= i < j < |rows| ==> rows[i].stat != rows[j].stat || rows[i].start != rows[j].start
  }

  predicate EachDescribedOnce(meta: seq<MetaRow>) {
    forall i, j :: 0 <= i < j < |meta| ==> meta[i].stat != meta[j].stat
  }

  /** One consistent read: all metadata, and every named row above the floor, each
      once, oldest first. */
  ghost predicate IsExport(db: Db, floor: real, p: Payload) {
    && p.schema == SchemaVersion(db.schema) && p.coversFrom == floor
    && (forall s :: s in db.meta <==> Describes(p.meta, s))
    && (forall m :: m in p.meta && m.stat in db.meta ==> m.info == db.meta[m.stat].info)
    && (forall i :: 0 <= i < |p.rows| ==>
          Has(db, p.rows[i].stat, p.rows[i].start) && p.rows[i].start > floor
          && ReadingOf(db, p.rows[i].stat, p.rows[i].start) == p.rows[i].reading)
    && (forall s, t :: Has(db, s, t) && t > floor ==> Carries(p.rows, s, t))
    && (forall i, j :: 0 <= i < j < |p.rows| ==> p.rows[i].start <= p.rows[j].start)
    && IsWatermark(p.rows, floor, p.watermark)
    && EachOnce(p.rows) && EachDescribedOnce(p.meta)
  }

  predicate IsWatermark(rows: seq<Row>, floor: real, w: real) {
    if rows == [] then w == floor
    else (exists i :: 0 <= i < |rows| && rows[i].start == w) && forall i :: 0 <= i < |rows| ==> rows[i].start <= w
  }

  /** The highest start time carried, or the floor when nothing is newer. */
  method Watermark(rows: seq<Row>, floor: real) returns (w: real)
    ensures IsWatermark(rows, floor, w)
  {
    if rows == [] {
      return floor;
    }
    w := rows[0].start;
    for i := 1 to |rows|
      invariant exists j :: 0 <= j < i && rows[j].start == w
      invariant forall j :: 0 <= j < i ==> rows[j].start <= w
    {
      if w < rows[i].start {
        w := rows[i].start;
      }
    }
  }

  /** The join of the two tables above the floor, by name. */
  function Joined(db: Db, floor: real): set<(StatId, real)> {
    set s, k | s in db.meta && k in db.rows && db.meta[s].id == k.metadataId && k.start > floor :: (s, k.start)
  }

  lemma JoinedExact(db: Db, floor: real)
    ensures forall s, t :: (s, t) in Joined(db, floor) <==> Has(db, s, t) && t > floor
  {
    forall s, t | Has(db, s, t) && t > floor
      ensures (s, t) in Joined(db, floor)
    {
      var k := Key(db.meta[s].id, t);
      assert k in db.rows && k.start == t;
    }
  }

  lemma {:induction false} OldestExists(todo: set<(StatId, real)>) returns (oldest: (StatId, real))
    requires todo != {}
    ensures oldest in todo && forall o :: o in todo ==> oldest.1 <= o.1
    decreases |todo|
  {
    var x :| x in todo;
    oldest := x;
    if todo - {x} != {} {
      var y := OldestExists(todo - {x});
      if y.1 < x.1 {
        oldest := y;
      }
    }
  }

  /** What the rows selected so far must satisfy, `todo` still to come. */
  ghost predicate Selected(db: Db, floor: real, rows: seq<Row>, todo: set<(StatId, real)>) {
    && (forall i :: 0 <= i < |rows| ==>
          Has(db, rows[i].stat, rows[i].start) && rows[i].start > floor
          && ReadingOf(db, rows[i].stat, rows[i].start) == rows[i].reading)
    && (forall s, t :: (s, t) in Joined(db, floor) ==> (s, t) in todo || Carries(rows, s, t))
    && (forall i, j :: 0 <= i < j < |rows| ==> rows[i].start <= rows[j].start)
    && (forall i, o :: 0 <= i < |rows| && o in todo ==> rows[i].start <= o.1)
    && EachOnce(rows) && (forall i :: 0 <= i < |rows| ==> (rows[i].stat, rows[i].start) !in todo)
  }

  lemma SelectOneMore(db: Db, floor: real, rows: seq<Row>, todo: set<(StatId, real)>, oldest: (StatId, real))
    requires Selected(db, floor, rows, todo) && todo <= Joined(db, floor)
    requires oldest in todo && forall o :: o in todo ==> oldest.1 <= o.1
    ensures Has(db, oldest.0, oldest.1)
    ensures Selected(db, floor, rows + [Row(oldest.0, oldest.1, ReadingOf(db, oldest.0, oldest.1))], todo - {oldest})
  {
    JoinedExact(db, floor);
    var more := rows + [Row(oldest.0, oldest.1, ReadingOf(db, oldest.0, oldest.1))];
    forall s, t | (s, t) in Joined(db, floor)
      ensures (s, t) in todo - {oldest} || Carries(more, s, t)
    {
      if (s, t) == oldest {
        assert more[|rows|].stat == s && more[|rows|].start == t;
      } else if Carries(rows, s, t) {
        var i :| 0 <= i < |rows| && rows[i].stat == s && rows[i].start == t;
        assert more[i] == rows[i];
      }
    }
  }

  method SelectRows(db: Db, floor: real) returns (rows: seq<Row>)
    ensures Selected(db, floor, rows, {})
  {
    rows := [];
    var todo := Joined(db, floor);
    JoinedExact(db, floor);
    while todo != {}
      invariant todo <= Joined(db, floor) && Selected(db, floor, rows, todo)
      decreases |todo|
    {
      ghost var first := OldestExists(todo);
      var oldest :| oldest in todo && forall o :: o in todo ==> oldest.1 <= o.1;
      SelectOneMore(db, floor, rows, todo, oldest);
      rows := rows + [Row(oldest.0, oldest.1, ReadingOf(db, oldest.0, oldest.1))];
      todo := todo - {oldest};
    }
  }

  method SelectMeta(db: Db) returns (meta: seq<MetaRow>)
    ensures forall s :: s in db.meta <==> Describes(meta, s)
    ensures forall m :: m in meta && m.stat in db.meta ==> m.info == db.meta[m.stat].info
    ensures EachDescribedOnce(meta)
  {
    meta := [];
    var todo := db.meta.Keys;
    while todo != {}
      invariant todo <= db.meta.Keys
      invariant forall s :: s in db.meta.Keys - todo <==> Describes(meta, s)
      invariant forall m :: m in meta && m.stat in db.meta ==> m.info == db.meta[m.stat].info
      invariant EachDescribedOnce(meta)
    {
      var s :| s in todo;
      ghost var before := meta;
      assert forall i :: 0 <= i < |meta| ==> Describes(meta, meta[i].stat);
      meta := meta + [MetaRow(s, db.meta[s].info)];
      todo := todo - {s};
      forall x ensures Describes(meta, x) <==> Describes(before, x) || x == s {
        if Describes(before, x) {
          var i :| 0 <= i < |before| && before[i].stat == x;
          assert meta[i].stat == x;
        }
        assert meta[|before|].stat == s;
      }
    }
  }

  /** All metadata, and every row above the floor under its statistic's name. */
  method ExportSince(db: Db, floor: real) returns (p: Payload)
    ensures IsExport(db, floor, p)
  {
    var meta := SelectMeta(db);
    var rows := SelectRows(db, floor);
    JoinedExact(db, floor);
    var watermark := Watermark(rows, floor);
    p := Payload(SchemaVersion(db.schema), meta, rows, watermark, floor);
  }

  /** Resuming from a watermark misses nothing of what was there and sends none of it
      twice: the same database read from there has nothing to ship. And the watermark is
      the start of a row that was shipped, unless there was none. */
  lemma ExportLeavesNothingBehind(db: Db, floor: real, p: Payload, next: Payload)
    requires IsExport(db, floor, p) && IsExport(db, p.watermark, next)
    ensures next.rows == [] && next.watermark == p.watermark >= floor
    ensures p.watermark == floor || exists s :: Carries(p.rows, s, p.watermark)
  {
    if p.rows != [] {
      var i :| 0 <= i < |p.rows| && p.rows[i].start == p.watermark;
      assert Carries(p.rows, p.rows[i].stat, p.watermark);
    }
    forall s, t | Has(db, s, t)
      ensures t <= p.watermark || t <= floor
    {
      assert t > floor ==> Carries(p.rows, s, t);
    }
  }

  // ------------------------------------------------------------------- apply

  function InsertMeta(db: Db, m: MetaRow): Db {
    if m.stat in db.meta then db
    else db.(meta := db.meta[m.stat := Meta(db.nextId, m.info)], nextId := db.nextId + 1)
  }

  function InsertRow(db: Db, r: Row): Db {
    if r.stat !in db.meta || Has(db, r.stat, r.start) then db
    else db.(rows := db.rows[Key(db.meta[r.stat].id, r.start) := r.reading])
  }

  function InsertMetas(db: Db, meta: seq<MetaRow>): Db {
    if meta == [] then db else InsertMeta(InsertMetas(db, meta[..|meta| - 1]), meta[|meta| - 1])
  }

  function InsertRows(db: Db, rows: seq<Row>): Db {
    if rows == [] then db else InsertRow(InsertRows(db, rows[..|rows| - 1]), rows[|rows| - 1])
  }

  /** A payload of another schema is refused outright. */
  predicate Refuses(db: Db, p: Payload) {
    SchemaVersion(db.schema) != p.schema
  }

  function Apply(db: Db, p: Payload): Db {
    if Refuses(db, p) then db else InsertRows(InsertMetas(db, p.meta), p.rows)
  }

  /** The guard, exactly. Two readable schemas must be equal; an unreadable one is
      refused if and only if the other side's is readable. */
  lemma UnreadableSchemaGuard(db: Db, leader: Db, floor: real, p: Payload)
    requires IsExport(leader, floor, p)
    ensures db.schema.Version? && leader.schema.Version? ==> (Refuses(db, p) <==> db.schema != leader.schema)
    ensures db.schema.NoVersion? ==> (Refuses(db, p) <==> leader.schema.Version?)
    ensures leader.schema.NoVersion? ==> (Refuses(db, p) <==> db.schema.Version?)
  {
  }

  /** So 0 does pass the guard, against 0: rows go from one database nobody can tell the
      schema of into another. */
  lemma UnreadablePassesUnreadable(stat: StatId, info: Info, start: real, reading: Reading)
    ensures var leader := Db(NoVersion, 2, map[stat := Meta(1, info)], map[Key(1, start) := reading]);
            var p := Payload(0, [MetaRow(stat, info)], [Row(stat, start, reading)], start, start - 1.0);
            var follower := Db(NoVersion, 1, map[], map[]);
            && IsExport(leader, start - 1.0, p)
            && !Refuses(follower, p) && Has(Apply(follower, p), stat, start)
  {
    var leader := Db(NoVersion, 2, map[stat := Meta(1, info)], map[Key(1, start) := reading]);
    var p := Payload(0, [MetaRow(stat, info)], [Row(stat, start, reading)], start, start - 1.0);
    var follower := Db(NoVersion, 1, map[], map[]);
    assert p.meta[0].stat == stat && p.rows[0].stat == stat && p.rows[0].start == start;
    assert Describes(p.meta, stat) && Carries(p.rows, stat, start);
    ApplyByName(follower, p);
  }

  /** The follower's recorder database, updated in place. */
  class Recorder {
    var db: Db

    constructor (db: Db)
      ensures this.db == db
    {
      this.db := db;
    }

    method InsertAllMeta(meta: seq<MetaRow>)
      modifies this
      ensures db == InsertMetas(old(db), meta) && db.rows == old(db).rows
    {
      for i := 0 to |meta|
        invariant db == InsertMetas(old(db), meta[..i]) && db.rows == old(db).rows
      {
        assert meta[..i + 1][..i] == meta[..i];
        if meta[i].stat !in db.meta {
          db := db.(meta := db.meta[meta[i].stat := Meta(db.nextId, meta[i].info)], nextId := db.nextId + 1);
        }
      }
      assert meta[..|meta|] == meta;
    }

    method InsertAllRows(rows: seq<Row>) returns (inserted: nat)
      modifies this
      ensures db == InsertRows(old(db), rows) && inserted == |db.rows| - |old(db).rows|
    {
      var ids := map s | s in db.meta :: db.meta[s].id;
      inserted := 0;
      for i := 0 to |rows|
        invariant db == InsertRows(old(db), rows[..i]) && db.meta == old(db).meta
        invariant inserted == |db.rows| - |old(db).rows|
      {
        var row := rows[i];
        assert rows[..i + 1][..i] == rows[..i];
        if row.stat !in ids {
          continue;
        }
        var key := Key(ids[row.stat], row.start);
        if key !in db.rows {
          db := db.(rows := db.rows[key := row.reading]);
          inserted := inserted + 1;
        }
      }
      assert rows[..|rows|] == rows;
    }

    /** `refused` is the schema mismatch; otherwise `inserted` is exactly how many
        rows the table grew by. */
    method ApplyPayload(p: Payload) returns (refused: bool, inserted: nat)
      modifies this
      ensures db == Apply(old(db), p)
      ensures refused == Refuses(old(db), p)
      ensures inserted == |db.rows| - |old(db).rows|
    {
      if SchemaVersion(db.schema) != p.schema {
        return true, 0;
      }
      InsertAllMeta(p.meta);
      inserted := InsertAllRows(p.rows);
      refused := false;
    }
  }

  // ----------------------------------------------- what one application means

  /** Everything already there survives, under the same numeric ids. */
  predicate Keeps(before: Db, after: Db) {
    && before.schema == after.schema
    && (forall s :: s in before.meta ==> s in after.meta && after.meta[s] == before.meta[s])
    && (forall k :: k in before.rows ==> k in after.rows && after.rows[k] == before.rows[k])
  }

  lemma {:induction false} MetasOnlyDescribe(db: Db, meta: seq<MetaRow>)
    requires Valid(db)
    ensures var after := InsertMetas(db, meta);
            Valid(after) && Keeps(db, after) && after.rows == db.rows
            && (forall s :: s in after.meta <==> s in db.meta || Describes(meta, s))
            && (forall s, t :: Has(after, s, t) <==> Has(db, s, t))
  {
    if meta != [] {
      var front, last := meta[..|meta| - 1], meta[|meta| - 1];
      MetasOnlyDescribe(db, front);
      forall s
        ensures Describes(meta, s) <==> Describes(front, s) || s == last.stat
      {
        if Describes(front, s) {
          var i :| 0 <= i < |front| && front[i].stat == s;
          assert meta[i].stat == s;
        }
        if s == last.stat {
          assert meta[|meta| - 1].stat == s;
        }
      }
    }
  }

  lemma {:induction false} NewMetaIsCarried(db: Db, meta: seq<MetaRow>, s: StatId)
    requires s in InsertMetas(db, meta).meta && s !in db.meta
    ensures MetaRow(s, InsertMetas(db, meta).meta[s].info) in meta
  {
    if meta != [] {
      var front, last := meta[..|meta| - 1], meta[|meta| - 1];
      assert meta == front + [last];
      if s in InsertMetas(db, front).meta {
        NewMetaIsCarried(db, front, s);
      }
    }
  }

  lemma {:induction false} RowsOnlyAdd(db: Db, rows: seq<Row>)
    requires Valid(db)
    ensures var after := InsertRows(db, rows);
            Valid(after) && Keeps(db, after) && after.meta == db.meta
            && (forall s, t :: Has(after, s, t) <==> Has(db, s, t) || (s in db.meta && Carries(rows, s, t)))
            && (forall s, t :: Has(after, s, t) && !Has(db, s, t) ==>
                  exists i :: 0 <= i < |rows| && rows[i] == Row(s, t, ReadingOf(after, s, t)))
  {
    if rows != [] {
      var front, last := rows[..|rows| - 1], rows[|rows| - 1];
      var before, after := InsertRows(db, front), InsertRows(db, rows);
      RowsOnlyAdd(db, front);
      forall s, t
        ensures Carries(rows, s, t) <==> Carries(front, s, t) || (s == last.stat && t == last.start)
      {
        if Carries(front, s, t) {
          var i :| 0 <= i < |front| && front[i].stat == s && front[i].start == t;
          assert rows[i].stat == s;
        }
        if s == last.stat && t == last.start {
          assert rows[|rows| - 1].stat == s;
        }
      }
      forall s, t | Has(after, s, t) && !Has(db, s, t)
        ensures exists i :: 0 <= i < |rows| && rows[i] == Row(s, t, ReadingOf(after, s, t))
      {
        if Has(before, s, t) {
          var i :| 0 <= i < |front| && front[i] == Row(s, t, ReadingOf(before, s, t));
          assert rows[i] == Row(s, t, ReadingOf(after, s, t));
        } else {
          assert rows[|rows| - 1] == Row(s, t, ReadingOf(after, s, t));
        }
      }
    }
  }

  /** One application, by name: exactly the described carried rows are added, each
      with the payload's reading, and nothing already there changes. */
  lemma ApplyByName(db: Db, p: Payload)
    requires Valid(db) && !Refuses(db, p)
    ensures var after := Apply(db, p);
            Valid(after) && Keeps(db, after)
            && (forall s, t :: Has(after, s, t) <==>
                  Has(db, s, t) || ((s in db.meta || Describes(p.meta, s)) && Carries(p.rows, s, t)))
            && (forall s, t :: Has(after, s, t) && !Has(db, s, t) ==>
                  exists i :: 0 <= i < |p.rows| && p.rows[i] == Row(s, t, ReadingOf(after, s, t)))
            && (forall s :: s in after.meta <==> s in db.meta || Describes(p.meta, s))
            && (forall s :: s in after.meta && s !in db.meta ==> MetaRow(s, after.meta[s].info) in p.meta)
  {
    MetasOnlyDescribe(db, p.meta);
    RowsOnlyAdd(InsertMetas(db, p.meta), p.rows);
    forall s | s in InsertMetas(db, p.meta).meta && s !in db.meta
      ensures MetaRow(s, InsertMetas(db, p.meta).meta[s].info) in p.meta
    {
      NewMetaIsCarried(db, p.meta, s);
    }
  }

  lemma {:induction false} KnownMetasChangeNothing(db: Db, meta: seq<MetaRow>)
    requires forall i :: 0 <= i < |meta| ==> meta[i].stat in db.meta
    ensures InsertMetas(db, meta) == db
  {
    if meta != [] { KnownMetasChangeNothing(db, meta[..|meta| - 1]); }
  }

  lemma {:induction false} KnownRowsChangeNothing(db: Db, rows: seq<Row>)
    requires forall i :: 0 <= i < |rows| && rows[i].stat in db.meta ==> Has(db, rows[i].stat, rows[i].start)
    ensures InsertRows(db, rows) == db
  {
    if rows != [] { KnownRowsChangeNothing(db, rows[..|rows| - 1]); }
  }

  /** Replaying a payload changes nothing, at any later time: whatever arrived in
      between, every row it can attach is already there. */
  lemma ReplayIsIdentity(db: Db, p: Payload, later: Db)
    requires Valid(db) && !Refuses(db, p) && Keeps(Apply(db, p), later)
    requires forall s :: s in later.meta && s !in Apply(db, p).meta ==> !exists t :: Carries(p.rows, s, t)
    ensures Apply(later, p) == later
  {
    var after := Apply(db, p);
    ApplyByName(db, p);
    MetasOnlyDescribe(db, p.meta);
    RowsOnlyAdd(InsertMetas(db, p.meta), p.rows);
    forall i | 0 <= i < |p.meta|
      ensures p.meta[i].stat in later.meta
    {
      assert Describes(p.meta, p.meta[i].stat);
      assert p.meta[i].stat in after.meta;
    }
    KnownMetasChangeNothing(later, p.meta);
    forall i | 0 <= i < |p.rows| && p.rows[i].stat in later.meta
      ensures Has(later, p.rows[i].stat, p.rows[i].start)
    {
      assert Carries(p.rows, p.rows[i].stat, p.rows[i].start);
      assert Has(after, p.rows[i].stat, p.rows[i].start);
    }
    KnownRowsChangeNothing(later, p.rows);
  }

  // -------------------------------------------------------------- convergence

  /** One applied window: the leader as it was when read, and what was read. */
  datatype Window = Window(leader: Db, payload: Payload)

  function Follower(db: Db, ws: seq<Window>, k: nat): Db
    requires k <= |ws|
  {
    if k == 0 then db else Apply(Follower(db, ws, k - 1), ws[k - 1].payload)
  }

  ghost predicate Honest(db: Db, ws: seq<Window>) {
    Valid(db) && forall i :: 0 <= i < |ws| ==> HonestWindow(db, ws[i])
  }

  /** One consistent read of a leader of the same schema. */
  ghost predicate HonestWindow(db: Db, w: Window) {
    IsExport(w.leader, w.payload.coversFrom, w.payload) && SchemaVersion(w.leader.schema) == SchemaVersion(db.schema)
  }

  predicate Shipped(w: Window, s: StatId, t: real) {
    Has(w.leader, s, t) && t > w.payload.coversFrom
  }

  /** A consistent read describes every row it carries, so all of it attaches. */
  lemma ExportShips(w: Window)
    requires IsExport(w.leader, w.payload.coversFrom, w.payload)
    ensures forall s, t :: Carries(w.payload.rows, s, t) <==> Shipped(w, s, t)
    ensures forall s, t :: Shipped(w, s, t) ==> Describes(w.payload.meta, s)
  {
  }

  /** One more window, by name: everything it shipped and nothing else is new. */
  ghost predicate Arrived(before: Db, w: Window, after: Db) {
    && Keeps(before, after)
    && (forall s, t :: Has(after, s, t) <==> Has(before, s, t) || Shipped(w, s, t))
    && (forall s, t :: Has(after, s, t) && !Has(before, s, t) ==> ReadingOf(after, s, t) == ReadingOf(w.leader, s, t))
  }

  /** And its metadata: every statistic of the leader is described afterwards, a new one
      by the leader's record. */
  ghost predicate MetaArrived(before: Db, w: Window, after: Db) {
    && (forall s :: s in after.meta <==> s in before.meta || s in w.leader.meta)
    && (forall s :: s in before.meta ==> after.meta[s] == before.meta[s])
    && (forall s :: s in after.meta && s !in before.meta ==> after.meta[s].info == w.leader.meta[s].info)
  }

  lemma WindowArrives(before: Db, w: Window)
    requires Valid(before) && HonestWindow(before, w)
    ensures Valid(Apply(before, w.payload)) && Arrived(before, w, Apply(before, w.payload))
  {
    ApplyByName(before, w.payload);
    ExportShips(w);
  }

  lemma WindowMetaArrives(before: Db, w: Window)
    requires Valid(before) && HonestWindow(before, w)
    ensures MetaArrived(before, w, Apply(before, w.payload))
  {
    ApplyByName(before, w.payload);
    var after := Apply(before, w.payload);
    forall s | s in after.meta && s !in before.meta
      ensures s in w.leader.meta && after.meta[s].info == w.leader.meta[s].info
    {
      assert MetaRow(s, after.meta[s].info) in w.payload.meta;
    }
  }

  ghost predicate ShippedBy(ws: seq<Window>, k: nat, s: StatId, t: real)
    requires k <= |ws|
  {
    exists i :: 0 <= i < k && Shipped(ws[i], s, t)
  }

  ghost predicate ReadingShipped(ws: seq<Window>, k: nat, s: StatId, t: real, reading: Reading)
    requires k <= |ws|
  {
    exists i :: 0 <= i < k && Shipped(ws[i], s, t) && ReadingOf(ws[i].leader, s, t) == reading
  }

  /** `f` holds, by name, what `db` held plus exactly what `k` windows shipped. */
  ghost predicate Sum(db: Db, ws: seq<Window>, k: nat, f: Db)
    requires k <= |ws|
  {
    && Keeps(db, f)
    && (forall s, t :: Has(f, s, t) <==> Has(db, s, t) || ShippedBy(ws, k, s, t))
    && (forall s, t :: Has(f, s, t) && !Has(db, s, t) ==> ReadingShipped(ws, k, s, t, ReadingOf(f, s, t)))
  }

  lemma SumStep(db: Db, ws: seq<Window>, k: nat, before: Db, after: Db)
    requires 0 < k <= |ws| && Sum(db, ws, k - 1, before) && Arrived(before, ws[k - 1], after)
    ensures Sum(db, ws, k, after)
  {
    forall s, t
      ensures ShippedBy(ws, k, s, t) <==> ShippedBy(ws, k - 1, s, t) || Shipped(ws[k - 1], s, t)
    {
    }
    forall s, t | Has(after, s, t) && !Has(db, s, t)
      ensures ReadingShipped(ws, k, s, t, ReadingOf(after, s, t))
    {
      if Has(before, s, t) {
        assert ReadingShipped(ws, k - 1, s, t, ReadingOf(before, s, t));
      } else {
        assert Shipped(ws[k - 1], s, t);
      }
    }
  }

  /** The first of `k` windows whose leader knew the statistic is `i`. */
  predicate FirstDescribes(ws: seq<Window>, k: nat, s: StatId, i: int) {
    0 <= i < k <= |ws| && s in ws[i].leader.meta && forall j :: 0 <= j < i ==> s !in ws[j].leader.meta
  }

  /** `f` describes what `db` did, as it did, plus exactly the statistics of the windows'
      leaders, each by the record of the first window that had it. */
  ghost predicate MetaSum(db: Db, ws: seq<Window>, k: nat, f: Db)
    requires k <= |ws|
  {
    && (forall s :: s in db.meta ==> s in f.meta && f.meta[s] == db.meta[s])
    && (forall s :: s in f.meta <==> s in db.meta || exists i :: 0 <= i < k && s in ws[i].leader.meta)
    && (forall s, i :: s in f.meta && s !in db.meta && FirstDescribes(ws, k, s, i) ==>
          f.meta[s].info == ws[i].leader.meta[s].info)
  }

  lemma MetaSumStep(db: Db, ws: seq<Window>, k: nat, before: Db, after: Db)
    requires 0 < k <= |ws| && MetaSum(db, ws, k - 1, before) && MetaArrived(before, ws[k - 1], after)
    ensures MetaSum(db, ws, k, after)
  {
    forall s, i | s in after.meta && s !in db.meta && FirstDescribes(ws, k, s, i)
      ensures after.meta[s].info == ws[i].leader.meta[s].info
    {
      if i < k - 1 {
        assert FirstDescribes(ws, k - 1, s, i) && s in before.meta;
      } else {
        assert s !in before.meta;
      }
    }
  }

  /** What every follower state of an honest history satisfies. */
  ghost predicate Caught(db: Db, ws: seq<Window>, k: nat, f: Db)
    requires k <= |ws|
  {
    Valid(f) && Sum(db, ws, k, f) && MetaSum(db, ws, k, f)
  }

  lemma CaughtStep(db: Db, ws: seq<Window>, k: nat, before: Db)
    requires 0 < k <= |ws| && Caught(db, ws, k - 1, before) && HonestWindow(db, ws[k - 1])
    ensures Caught(db, ws, k, Apply(before, ws[k - 1].payload))
  {
    WindowArrives(before, ws[k - 1]);
    WindowMetaArrives(before, ws[k - 1]);
    SumStep(db, ws, k, before, Apply(before, ws[k - 1].payload));
    MetaSumStep(db, ws, k, before, Apply(before, ws[k - 1].payload));
  }

  lemma CaughtAtFirst(db: Db, ws: seq<Window>)
    requires Valid(db)
    ensures Caught(db, ws, 0, db)
  {
  }

  /** Exactly what the follower ends up with, for windows in any order, with
      replays and gaps. */
  lemma {:induction false} FollowerExact(db: Db, ws: seq<Window>, k: nat)
    requires k <= |ws| && Honest(db, ws)
    ensures Caught(db, ws, k, Follower(db, ws, k))
  {
    if k == 0 {
      CaughtAtFirst(db, ws);
    } else {
      FollowerExact(db, ws, k - 1);
      CaughtStep(db, ws, k, Follower(db, ws, k - 1));
    }
  }

  lemma HoldsExactly(db: Db, ws: seq<Window>, s: StatId, t: real)
    requires Honest(db, ws)
    ensures Has(Follower(db, ws, |ws|), s, t) <==> Has(db, s, t) || ShippedBy(ws, |ws|, s, t)
  {
    FollowerExact(db, ws, |ws|);
  }

  /** `last` is the leader later on: its rows never change. */
  ghost predicate GrewInto(w: Window, last: Db) {
    forall s, t :: Has(w.leader, s, t) ==> Has(last, s, t) && ReadingOf(last, s, t) == ReadingOf(w.leader, s, t)
  }

  /** The row was not added below a watermark already read past. */
  predicate NotBackfilled(ws: seq<Window>, s: StatId, t: real) {
    forall i :: 0 <= i < |ws| && !Has(ws[i].leader, s, t) ==> t > ws[i].payload.watermark
  }

  /** Every floor but the first is at most an earlier applied watermark. */
  predicate NoGap(ws: seq<Window>) {
    forall i :: 0 < i < |ws| ==> exists j :: 0 <= j < i && ws[i].payload.coversFrom <= ws[j].payload.watermark
  }

  lemma {:induction false} SomeWindowShips(ws: seq<Window>, k: nat, s: StatId, t: real) returns (i: nat)
    requires k < |ws| && NoGap(ws) && NotBackfilled(ws, s, t)
    requires ws[0].payload.coversFrom < t <= ws[k].payload.watermark
    ensures i <= k && Shipped(ws[i], s, t)
  {
    if t > ws[k].payload.coversFrom {
      i := k;
    } else {
      var j :| 0 <= j < k && ws[k].payload.coversFrom <= ws[j].payload.watermark;
      i := SomeWindowShips(ws, j, s, t);
    }
  }

  /** Convergence: without a gap the follower holds every leader row between the
      first floor and any applied watermark that was not backfilled, under the same
      name, and with the leader's reading wherever it had none of its own. */
  lemma Converges(db: Db, ws: seq<Window>, last: Db, k: nat, s: StatId, t: real)
    requires Honest(db, ws) && NoGap(ws) && k < |ws| && forall w :: w in ws ==> GrewInto(w, last)
    requires NotBackfilled(ws, s, t) && Has(last, s, t) && ws[0].payload.coversFrom < t <= ws[k].payload.watermark
    ensures var f := Follower(db, ws, |ws|);
            Has(f, s, t)
            && ReadingOf(f, s, t) == if Has(db, s, t) then ReadingOf(db, s, t) else ReadingOf(last, s, t)
  {
    FollowerExact(db, ws, |ws|);
    var i := SomeWindowShips(ws, k, s, t);
    assert ShippedBy(ws, |ws|, s, t);
    if !Has(db, s, t) {
      var f := Follower(db, ws, |ws|);
      assert ReadingShipped(ws, |ws|, s, t, ReadingOf(f, s, t));
      var j :| 0 <= j < |ws| && Shipped(ws[j], s, t) && ReadingOf(ws[j].leader, s, t) == ReadingOf(f, s, t);
      assert GrewInto(ws[j], last);
    }
  }

  /** A row added by and by: one that appears between two reads
      arrives with the second exactly when it lies above the second's floor. */
  lemma AddedRowArrivesAboveTheFloor(db: Db, first: Window, second: Window, s: StatId, t: real)
    requires Honest(db, [first, second]) && !Has(db, s, t)
    requires Has(second.leader, s, t) && !Has(first.leader, s, t)
    ensures Has(Follower(db, [first, second], 2), s, t) <==> t > second.payload.coversFrom
  {
    var ws := [first, second];
    HoldsExactly(db, ws, s, t);
    assert Shipped(ws[1], s, t) <==> t > second.payload.coversFrom;
  }

  /** The condition is needed: a floor above everything applied so far leaves a hole. */
  lemma GapLosesARow(db: Db, first: Window, second: Window, s: StatId, t: real)
    requires Honest(db, [first, second]) && !Has(db, s, t)
    requires Has(second.leader, s, t) && !Has(first.leader, s, t)
    requires first.payload.watermark < t <= second.payload.coversFrom
    ensures !Has(Follower(db, [first, second], 2), s, t)
  {
    AddedRowArrivesAboveTheFloor(db, first, second, s, t);
  }

  /** Backfilled below a watermark that the next window resumes from, a row is missed,
      without any gap between the windows. */
  lemma BackfilledRowIsMissed(db: Db, first: Window, second: Window, s: StatId, t: real)
    requires Honest(db, [first, second]) && !Has(db, s, t)
    requires Has(second.leader, s, t) && !Has(first.leader, s, t)
    requires second.payload.coversFrom == first.payload.watermark >= t
    ensures NoGap([first, second]) && !NotBackfilled([first, second], s, t)
    ensures !Has(Follower(db, [first, second], 2), s, t)
  {
    var ws := [first, second];
    AddedRowArrivesAboveTheFloor(db, first, second, s, t);
    assert !Has(ws[0].leader, s, t) && ws[1].payload.coversFrom <= ws[0].payload.watermark;
  }
}
