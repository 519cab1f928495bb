/**
 The identity tool: keep this node's own configuration entries across a swap that
 replaces the whole store by the leader's, and inherit only what describes the
 cluster.
 */
module Identity {
  import opened Wrappers

  const DOMAIN := "cluster_state_sync"

  /** The settings named here describe the cluster; every other stays local. */
  const CLUSTER_WIDE: set<string> := {
    "notify_conditions", "notify_services", "include_domains", "include_entities", "exclude_entities",
    "exclude_devices", "ingress_url", "ingress_verify_tls", "cluster_namespace", "redis_host", "redis_port",
    "redis_db", "redis_username", "redis_password", "redis_use_tls", "redis_use_sentinel", "redis_sentinel_hosts",
    "redis_sentinel_service", "leadership_source", "snapshot_interval", "restore_max_age", "settle_delay",
    "history_database", "statistics_enabled", "statistics_interval_minutes", "statistics_max_bytes",
    "statistics_window_days", "fileset_enabled", "fileset_exclusions", "fileset_extra_paths",
    "fileset_extra_custom", "fileset_hot_interval", "fileset_max_bytes", "fileset_stale_after",
    "recorder_snapshot_enabled", "recorder_snapshot_minutes", "gate_automations", "gate_recorder"}

  type Settings = map<string, string>

  /** `rest` is whatever else the entry carries: title, unique id, version. An empty
      `entryId` is a missing one. */
  datatype Entry = Entry(domain: string, entryId: string, data: Settings, options: Settings, rest: string) {
    predicate Own() { domain == DOMAIN }

    /** The settings the integration runs with: options win over data. */
    function Effective(): Settings { data + options }
  }

  /** The config-entries store file; `envelope` is everything outside the entries. */
  datatype Store = Missing | Unreadable | Entries(entries: seq<Entry>, envelope: string)

  function Filter(entries: seq<Entry>, own: bool): (r: seq<Entry>)
    ensures forall e :: e in r <==> e in entries && e.Own() == own
  {
    if entries == [] then []
    else if entries[0].Own() == own then [entries[0]] + Filter(entries[1..], own)
    else Filter(entries[1..], own)
  }

  /** The cluster-wide settings an entry carries. */
  function Inherited(theirs: Entry): Settings {
    map k | k in CLUSTER_WIDE && k in theirs.data + theirs.options :: (theirs.data + theirs.options)[k]
  }

  function InheritClusterWide(mine: Entry, theirs: Entry): Entry {
    mine.(options := mine.options + Inherited(theirs))
  }

  /** The go-bag's entry id is the join key of the registries that come with it. */
  function Rehome(mine: Entry, theirs: Entry): Entry {
    InheritClusterWide(if theirs.entryId != "" then mine.(entryId := theirs.entryId) else mine, theirs)
  }

  /** The entry keeps what it is and takes the go-bag's id, where there is one. */
  lemma RehomedEntry(mine: Entry, theirs: Entry)
    ensures var r := Rehome(mine, theirs);
            && r.domain == mine.domain && r.data == mine.data && r.rest == mine.rest
            && r.entryId == if theirs.entryId == "" then mine.entryId else theirs.entryId
  {
  }

  function RehomeAll(ours: seq<Entry>, incoming: seq<Entry>): (r: seq<Entry>)
    ensures |r| == |ours|
    ensures forall i :: 0 <= i < |ours| ==> r[i] == if i < |incoming| then Rehome(ours[i], incoming[i]) else ours[i]
  {
    seq(|ours|, i requires 0 <= i < |ours| => if i < |incoming| then Rehome(ours[i], incoming[i]) else ours[i])
  }

  /** Replace the store's own-domain entries by `ours`; None refuses. */
  function Graft(entries: seq<Entry>, ours: seq<Entry>): Option<seq<Entry>> {
    var incoming := Filter(entries, true);
    if ours != [] && |incoming| > |ours| then None
    else Some(Filter(entries, false) + RehomeAll(ours, incoming))
  }

  lemma {:induction false} FilterSplits(a: seq<Entry>, b: seq<Entry>, own: bool)
    ensures Filter(a + b, own) == Filter(a, own) + Filter(b, own)
  {
    if a == [] {
      assert a + b == b;
    } else {
      assert (a + b)[1..] == a[1..] + b;
      FilterSplits(a[1..], b, own);
    }
  }

  lemma {:induction false} FilterAll(a: seq<Entry>, own: bool)
    requires forall e :: e in a ==> e.Own()
    ensures Filter(a, own) == if own then a else []
  {
    if a != [] { FilterAll(a[1..], own); }
  }

  lemma {:induction false} FilterTwice(a: seq<Entry>, own: bool, again: bool)
    ensures Filter(Filter(a, own), again) == if again == own then Filter(a, own) else []
  {
    if a != [] {
      FilterTwice(a[1..], own, again);
      if a[0].Own() == own {
        assert Filter(a, own)[1..] == Filter(a[1..], own);
      }
    }
  }

  /** Every other integration's entry crosses unchanged and in order; the own-domain
      entries are exactly this node's, one for one. */
  lemma GraftKeepsBothHalves(entries: seq<Entry>, ours: seq<Entry>)
    requires forall e :: e in ours ==> e.Own()
    ensures Graft(entries, ours) == None <==> 0 < |ours| < |Filter(entries, true)|
    ensures var g := Graft(entries, ours);
            g.Some? ==> && Filter(g.value, false) == Filter(entries, false)
                        && Filter(g.value, true) == RehomeAll(ours, Filter(entries, true))
  {
    var incoming := Filter(entries, true);
    var rehomed := RehomeAll(ours, incoming);
    forall e | e in rehomed ensures e.Own() {
      var i :| 0 <= i < |rehomed| && rehomed[i] == e;
      assert ours[i] in ours;
    }
    FilterSplits(Filter(entries, false), rehomed, true);
    FilterSplits(Filter(entries, false), rehomed, false);
    FilterTwice(entries, false, true);
    FilterTwice(entries, false, false);
    FilterAll(rehomed, true);
    FilterAll(rehomed, false);
  }

  /** A setting crosses exactly when it is cluster-wide and the leader carries it. */
  lemma SettingCrosses(mine: Entry, theirs: Entry, key: string)
    ensures var before, after := mine.Effective(), Rehome(mine, theirs).Effective();
            if key in CLUSTER_WIDE && key in theirs.Effective()
            then key in after && after[key] == theirs.Effective()[key]
            else (key in after <==> key in before) && (key in before ==> after[key] == before[key])
  {
  }

  /** The value of one setting, if the entry has it. */
  function Setting(e: Entry, key: string): Option<string> {
    if key in e.Effective() then Some(e.Effective()[key]) else None
  }

  /** The settings that belong to one machine. */
  const PER_NODE: set<string> := {
    "node_id", "peer_host", "ha_config_path", "ha_container", "ha_container_ip", "ha_uid", "ha_start_mode",
    "compose_file", "compose_profile", "compose_service", "compose_env_file", "docker_network",
    "redis_tls_ca_certs", "iot_subnets", "block_discovery", "radio_watch", "leadership_entity",
    "topology_model", "cluster_secret"}

  lemma NothingPerNodeCrosses(mine: Entry, theirs: Entry, key: string)
    requires key in PER_NODE
    ensures Setting(Rehome(mine, theirs), key) == Setting(mine, key)
  {
    assert key !in CLUSTER_WIDE;
    SettingCrosses(mine, theirs, key);
  }

  /** Grafting again onto a grafted store changes no setting anybody reads. */
  lemma RehomeIsStable(mine: Entry, theirs: Entry)
    ensures var once := Rehome(mine, theirs);
            Rehome(mine, once).Effective() == once.Effective() && Rehome(mine, once).entryId == once.entryId
  {
    var once := Rehome(mine, theirs);
    var twice := Rehome(mine, once);
    forall key
      ensures key in twice.Effective() <==> key in once.Effective()
      ensures key in once.Effective() ==> twice.Effective()[key] == once.Effective()[key]
    {
      SettingCrosses(mine, theirs, key);
      SettingCrosses(mine, once, key);
    }
  }

  // ------------------------------------------------------------- the tool itself

  /** What capture saves, or a refusal. */
  function Capture(store: Store): Option<seq<Entry>> {
    match store
    case Missing => Some([])
    case Unreadable => None
    case Entries(entries, _) => Some(Filter(entries, true))
  }

  datatype ExitCode = Ok0 | Failed1 | NoLocalIdentity2

  /** What restore does to the store just installed. */
  function RestoreTool(store: Store, captured: seq<Entry>): (Store, ExitCode) {
    if !store.Entries? then (store, Failed1)
    else
      match Graft(store.entries, captured)
      case None => (store, Failed1)
      case Some(grafted) => (Entries(grafted, store.envelope), if captured == [] then NoLocalIdentity2 else Ok0)
  }

  /** The entries this node would lead with. */
  function Identities(store: Store): seq<Entry> {
    if store.Entries? then Filter(store.entries, true) else []
  }

  /** A restored store carries this node's identities: as many entries as were
      captured, and in each of them every setting that is not cluster-wide. */
  ghost predicate SameIdentities(a: Store, b: Store) {
    && |Identities(a)| == |Identities(b)|
    && forall i, key :: 0 <= i < |Identities(a)| && key !in CLUSTER_WIDE ==>
         Setting(Identities(a)[i], key) == Setting(Identities(b)[i], key)
  }

  /** When the tool refuses, and that it then leaves the store alone: there is nothing
      readable to restore into, or the go-bag has entries no entry of this node's is for. */
  lemma RestoreRefusesExactly(own: Store, installed: Store)
    requires Capture(own).Some?
    ensures var (restored, rc) := RestoreTool(installed, Capture(own).value);
            && (rc == Failed1 <==>
                !installed.Entries? || 0 < |Identities(own)| < |Filter(installed.entries, true)|)
            && (rc == Failed1 ==> restored == installed)
            && (rc != Failed1 ==> restored.Entries? && restored.envelope == installed.envelope)
    ensures Capture(own).value == Identities(own)
  {
  }

  lemma NothingIsCaptured(own: Store)
    ensures Capture(own) == None <==> own.Unreadable?
  {
  }

  lemma RestoreKeepsIdentity(own: Store, installed: Store)
    requires Capture(own).Some?
    ensures var (restored, rc) := RestoreTool(installed, Capture(own).value);
            rc != Failed1 ==> && SameIdentities(restored, own)
                              && Filter(restored.entries, false) == Filter(installed.entries, false)
                              && (rc == NoLocalIdentity2 <==> Identities(own) == [])
  {
    if installed.Entries? {
      var ours := Capture(own).value;
      GraftKeepsBothHalves(installed.entries, ours);
      var incoming := Filter(installed.entries, true);
      forall i, key | 0 <= i < |ours| && i < |incoming| && key !in CLUSTER_WIDE
        ensures Setting(Rehome(ours[i], incoming[i]), key) == Setting(ours[i], key)
      {
        SettingCrosses(ours[i], incoming[i], key);
      }
    }
  }

  /** The same entry to whoever reads it: at most a setting has moved from its data to
      its options. */
  predicate SameEntry(x: Entry, y: Entry) {
    x.domain == y.domain && x.entryId == y.entryId && x.rest == y.rest && x.Effective() == y.Effective()
  }

  /** The same store to whoever reads it, with every integration's entries. */
  predicate SameContents(a: Store, b: Store) {
    if a.Entries? && b.Entries? then
      && a.envelope == b.envelope
      && Filter(a.entries, false) == Filter(b.entries, false)
      && |Identities(a)| == |Identities(b)|
      && forall i :: 0 <= i < |Identities(a)| ==> SameEntry(Identities(a)[i], Identities(b)[i])
    else a == b
  }

  lemma SameContentsSameIdentities(a: Store, b: Store)
    requires SameContents(a, b)
    ensures SameIdentities(a, b)
  {
    if a.Entries? && b.Entries? {
      forall i, key | 0 <= i < |Identities(a)| && key !in CLUSTER_WIDE
        ensures Setting(Identities(a)[i], key) == Setting(Identities(b)[i], key)
      {
        assert SameEntry(Identities(a)[i], Identities(b)[i]);
      }
    }
  }

  lemma RehomeOntoItself(mine: Entry)
    ensures SameEntry(Rehome(mine, mine), mine)
  {
    forall key
      ensures key in Rehome(mine, mine).Effective() <==> key in mine.Effective()
      ensures key in mine.Effective() ==> Rehome(mine, mine).Effective()[key] == mine.Effective()[key]
    {
      SettingCrosses(mine, mine, key);
    }
  }

  /** Restored onto the very store it was captured from, nothing is lost or changed. */
  lemma RestoreOntoItself(own: Store)
    requires own.Entries?
    ensures var (restored, rc) := RestoreTool(own, Capture(own).value);
            rc != Failed1 && SameContents(restored, own)
  {
    var ours := Filter(own.entries, true);
    GraftKeepsBothHalves(own.entries, ours);
    forall i | 0 <= i < |ours|
      ensures SameEntry(RehomeAll(ours, ours)[i], ours[i])
    {
      RehomeOntoItself(ours[i]);
    }
  }
}
