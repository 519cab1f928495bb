/**
 Snapshot entries, their signed wire form, and the rules deciding which entities
 take part.

 A signature is an injective function of everything it is computed over, so it is
 modelled as those arguments. Times are microseconds since the epoch.
 */
module Snapshot {
  import opened Wrappers

  type EntityId = string
  type Node = string

  const SCHEMA_VERSION: int := 1
  const MAX_ATTRIBUTE_BYTES: nat := 16384

  /** A stored timestamp: ISO-8601 text, or text no parser accepts. */
  datatype Stamp = Iso(at: int) | Garbage(text: string)

  function ParseStamp(stamp: Stamp): Option<int> {
    match stamp
    case Iso(at) => Some(at)
    case Garbage(_) => None
  }

  /** `bytes` is the serialised size, or None when they do not serialise. */
  datatype Attributes = Attributes(content: string, bytes: Option<nat>)

  const NO_ATTRIBUTES := Attributes("{}", Some(2))

  predicate WithinBudget(a: Attributes) {
    a.bytes.Some? && a.bytes.value <= MAX_ATTRIBUTE_BYTES
  }

  datatype SnapshotEntry = SnapshotEntry(
    entityId: EntityId,
    state: string,
    attributes: Attributes,
    lastChanged: Stamp,
    lastUpdated: Stamp,
    sourceNode: Node)

  // --------------------------------------------------------------- wire form

  datatype Fields = Fields(
    v: Option<int>,
    s: Option<string>,
    a: Option<Attributes>,
    lc: Option<Stamp>,
    lu: Option<Stamp>,
    n: Option<Node>)

  datatype Signature = Signature(entityId: EntityId, fields: Fields, extra: set<string>, secret: string)

  /** One stored value: unusable text, or an object with the known fields, the
      names of any others, and possibly a signature. */
  datatype Raw = Malformed | Object(fields: Fields, extra: set<string>, signature: Option<Signature>)

  datatype Refusal = NotAnObject | Unsigned | UnexpectedField | BadSignature | BadVersion | MissingField

  /** The empty secret means none is configured. */
  function ToJson(e: SnapshotEntry, secret: string): Raw {
    var fields := Fields(Some(SCHEMA_VERSION), Some(e.state), Some(e.attributes),
                         Some(e.lastChanged), Some(e.lastUpdated), Some(e.sourceNode));
    Object(fields, {}, if secret == "" then None else Some(Signature(e.entityId, fields, {}, secret)))
  }

  /** With a secret, an accepted value is exactly one some holder of that secret
      signed for this very entity. */
  function FromJson(entityId: EntityId, raw: Raw, secret: string): (r: Result<SnapshotEntry, Refusal>)
    ensures r.Ok? ==> r.value.entityId == entityId
    ensures r.Ok? && secret != "" ==>
              raw.Object? && raw == Object(raw.fields, {}, Some(Signature(entityId, raw.fields, {}, secret)))
  {
    if raw.Malformed? then Err(NotAnObject)
    else if secret != "" && raw.signature == None then Err(Unsigned)
    else if secret != "" && raw.extra != {} then Err(UnexpectedField)
    else if secret != "" && raw.signature != Some(Signature(entityId, raw.fields, raw.extra, secret))
    then Err(BadSignature)
    else if raw.fields.v.Some? && raw.fields.v.value > SCHEMA_VERSION then Err(BadVersion)
    else if raw.fields.s == None || raw.fields.lc == None || raw.fields.lu == None then Err(MissingField)
    else Ok(SnapshotEntry(
              entityId, raw.fields.s.value,
              if raw.fields.a.Some? then raw.fields.a.value else NO_ATTRIBUTES,
              raw.fields.lc.value, raw.fields.lu.value,
              if raw.fields.n.Some? then raw.fields.n.value else "unknown"))
  }

  /** Nodes sharing a secret (or sharing none) read back what they wrote, and an
      entry written under one secret is refused under any other or on any other
      entity's field. */
  lemma WireRoundTrip(e: SnapshotEntry, secret: string, reader: string, field: EntityId)
    requires reader != ""
    ensures FromJson(e.entityId, ToJson(e, secret), secret) == Ok(e)
    ensures FromJson(field, ToJson(e, secret), reader).Ok? <==> reader == secret && field == e.entityId
  {
  }

  /** What a reader accepts, and what it makes of it: the state and both stamps must be
      there, the attributes and the writer may be missing, and a newer schema is refused. */
  lemma AcceptedExactly(entityId: EntityId, fields: Fields, extra: set<string>, signature: Option<Signature>,
                        secret: string)
    ensures var read := FromJson(entityId, Object(fields, extra, signature), secret);
            && (read.Ok? <==>
                && (secret == "" || (extra == {} && signature == Some(Signature(entityId, fields, {}, secret))))
                && (fields.v == None || fields.v.value <= 1)
                && fields.s.Some? && fields.lc.Some? && fields.lu.Some?)
            && (read.Ok? ==>
                  && read.value.entityId == entityId && fields.s == Some(read.value.state)
                  && fields.lc == Some(read.value.lastChanged) && fields.lu == Some(read.value.lastUpdated)
                  && fields.a in {Some(read.value.attributes), None}
                  && (fields.a == None ==> read.value.attributes.content == "{}")
                  && fields.n in {Some(read.value.sourceNode), None}
                  && (fields.n == None ==> read.value.sourceNode == "unknown"))
    ensures FromJson(entityId, Malformed, secret).Err?
  {
  }

  // ------------------------------------------------------------------- scope

  const DEFAULT_INCLUDE_DOMAINS: seq<string> := [
    "automation", "input_boolean", "input_number", "input_select", "input_text", "input_datetime",
    "counter", "timer", "vacuum", "climate", "humidifier", "water_heater"]

  /** The empty leadership entity, or an empty domain list, means unset. */
  datatype Config = Config(
    leadershipEntity: EntityId,
    excludeEntities: seq<EntityId>,
    includeEntities: seq<EntityId>,
    includeDomains: seq<string>)

  /** The part of an entity id before its first dot. */
  function Domain(entityId: EntityId): (d: string)
    ensures d <= entityId && '.' !in d
    ensures d == entityId || entityId[|d|] == '.'
  {
    if entityId == "" || entityId[0] == '.' then "" else [entityId[0]] + Domain(entityId[1..])
  }

  predicate ShouldTrack(entityId: EntityId, cfg: Config, excludedIds: set<EntityId>) {
    && !(cfg.leadershipEntity != "" && entityId == cfg.leadershipEntity)
    && entityId !in cfg.excludeEntities
    && entityId !in excludedIds
    && (entityId in cfg.includeEntities
        || Domain(entityId) in if cfg.includeDomains == [] then DEFAULT_INCLUDE_DOMAINS else cfg.includeDomains)
  }

  /** Exclusion always wins, naming an entity comes next, and its domain decides the rest. */
  lemma ScopePrecedence(id: EntityId, cfg: Config, excludedIds: set<EntityId>)
    ensures id in cfg.excludeEntities || id in excludedIds ==> !ShouldTrack(id, cfg, excludedIds)
    ensures id == cfg.leadershipEntity != "" ==> !ShouldTrack(id, cfg, excludedIds)
    ensures ShouldTrack(id, cfg, excludedIds) || id in cfg.excludeEntities || id in excludedIds
            || id == cfg.leadershipEntity != ""
            || (id !in cfg.includeEntities && if cfg.includeDomains == [] then Domain(id) !in DEFAULT_INCLUDE_DOMAINS
                                              else Domain(id) !in cfg.includeDomains)
    ensures ShouldTrack(id, cfg, excludedIds) && id !in cfg.includeEntities && cfg.includeDomains != [] ==>
              Domain(id) in cfg.includeDomains
    ensures ShouldTrack(id, cfg, excludedIds) && id !in cfg.includeEntities && cfg.includeDomains == [] ==>
              Domain(id) in DEFAULT_INCLUDE_DOMAINS
  {
  }
}
