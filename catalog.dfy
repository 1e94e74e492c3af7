/** The ZCL schema catalog: cluster, attribute and command definitions read
    from a JSON file keyed by name, re-keyed by numeric ID, and looked up by
    cluster ID when reports and responses are translated. */
module Catalog {
  import opened Common

  datatype AttributeDefinition = AttributeDefinition(id: U16, name: string, attrType: U8)

  /** Command and command-response definitions share one shape. */
  datatype CommandDefinition = CommandDefinition(id: U16, name: string, parameters: seq<seq<string>>)

  datatype ClusterDefinition = ClusterDefinition(
    id: U16,
    name: string,
    attributes: map<U16, AttributeDefinition>,
    commands: map<U16, CommandDefinition>,
    commandsResponse: map<U16, CommandDefinition>)

  /** Go's zero ClusterDefinition: ID 0, empty name, nil maps (which read as empty). */
  const ZeroCluster: ClusterDefinition := ClusterDefinition(0, "", map[], map[], map[])

  /** One cluster as the JSON file holds it, its tables keyed by name. */
  datatype JsonCluster = JsonCluster(
    id: U16,
    attributes: map<string, AttributeDefinition>,
    commands: map<string, CommandDefinition>,
    commandsResponse: map<string, CommandDefinition>)

  type JsonTable = map<string, JsonCluster>

  type ClusterCatalog = map<U16, ClusterDefinition>

  function AttributeId(a: AttributeDefinition): U16 { a.id }
  function AttributeNamed(a: AttributeDefinition, name: string): AttributeDefinition { a.(name := name) }
  function CommandId(c: CommandDefinition): U16 { c.id }
  function CommandNamed(c: CommandDefinition, name: string): CommandDefinition { c.(name := name) }

  // ---------------------------------------------------------------------
  // Re-keying a name-keyed table by ID.

  /** out is what re-keying the entries of src named in done produces: its keys
      are exactly their IDs, and each entry is one of them with its name set
      to its JSON key. Which entry survives a collision depends on Go's map
      iteration order, so it is not fixed here. */
  ghost predicate RekeyedPart<D>(out: map<U16, D>, src: map<string, D>, done: set<string>,
                                 idOf: D -> U16, named: (D, string) -> D)
    requires done <= src.Keys
  {
    out.Keys == (set n | n in done :: idOf(src[n])) &&
    forall id :: id in out ==> exists n :: n in done && idOf(src[n]) == id && out[id] == named(src[n], n)
  }

  ghost predicate RekeyedFrom<D>(out: map<U16, D>, src: map<string, D>,
                                 idOf: D -> U16, named: (D, string) -> D)
  {
    RekeyedPart(out, src, src.Keys, idOf, named)
  }

  /** The inner loops of loadFromFile: `x.Name = key; out[x.ID] = x` for every key. */
  method Rekey<D>(src: map<string, D>, idOf: D -> U16, named: (D, string) -> D)
    returns (out: map<U16, D>)
    ensures RekeyedFrom(out, src, idOf, named)
  {
    out := map[];
    var todo := src.Keys;
    while todo != {}
      invariant todo <= src.Keys
      invariant RekeyedPart(out, src, src.Keys - todo, idOf, named)
      decreases |todo|
    {
      var key :| key in todo;
      ghost var done := src.Keys - todo;
      out := out[idOf(src[key]) := named(src[key], key)];
      todo := todo - {key};
      assert src.Keys - todo == done + {key};
      assert out.Keys == (set n | n in done + {key} :: idOf(src[n])) by {
        assert (set n | n in done + {key} :: idOf(src[n])) == (set n | n in done :: idOf(src[n])) + {idOf(src[key])};
      }
    }
  }

  /** Re-keying never yields more entries than it read. */
  lemma {:induction false} ImageSize<D>(s: set<string>, src: map<string, D>, idOf: D -> U16)
    requires s <= src.Keys
    ensures |set n | n in s :: idOf(src[n])| <= |s|
    decreases |s|
  {
    if s != {} {
      var x :| x in s;
      ImageSize(s - {x}, src, idOf);
      assert (set n | n in s :: idOf(src[n])) == (set n | n in s - {x} :: idOf(src[n])) + {idOf(src[x])};
    }
  }

  lemma RekeyNoLarger<D>(out: map<U16, D>, src: map<string, D>, idOf: D -> U16, named: (D, string) -> D)
    requires RekeyedFrom(out, src, idOf, named)
    ensures |out.Keys| <= |src.Keys|
  {
    ImageSize(src.Keys, src, idOf);
  }

  /** Every input entry's ID is a key of the result; with distinct IDs each
      entry survives, under its own ID, with only its name set. */
  lemma RekeyKeepsEveryId<D>(out: map<U16, D>, src: map<string, D>, idOf: D -> U16, named: (D, string) -> D)
    requires RekeyedFrom(out, src, idOf, named)
    ensures forall n :: n in src ==> idOf(src[n]) in out
    ensures (forall m, n :: m in src && n in src && m != n ==> idOf(src[m]) != idOf(src[n])) ==>
      forall n :: n in src ==> out[idOf(src[n])] == named(src[n], n)
  {
    forall n | n in src
      ensures idOf(src[n]) in out
    {
      assert idOf(src[n]) in (set m | m in src.Keys :: idOf(src[m]));
    }
  }

  /** An absent table yields an empty, freshly made map. */
  lemma RekeyEmpty<D>(out: map<U16, D>, idOf: D -> U16, named: (D, string) -> D)
    requires RekeyedFrom(out, map[], idOf, named)
    ensures out == map[]
  {
  }

  // ---------------------------------------------------------------------
  // The whole table.

  /** def is the cluster built from JSON entry `name`. */
  ghost predicate ClusterFrom(def: ClusterDefinition, name: string, c: JsonCluster)
  {
    def.id == c.id && def.name == name &&
    RekeyedFrom(def.attributes, c.attributes, AttributeId, AttributeNamed) &&
    RekeyedFrom(def.commands, c.commands, CommandId, CommandNamed) &&
    RekeyedFrom(def.commandsResponse, c.commandsResponse, CommandId, CommandNamed)
  }

  ghost predicate CatalogPart(cat: ClusterCatalog, table: JsonTable, done: set<string>)
    requires done <= table.Keys
  {
    cat.Keys == (set n | n in done :: table[n].id) &&
    forall id :: id in cat ==> exists n :: n in done && table[n].id == id && ClusterFrom(cat[id], n, table[n])
  }

  /** cat is a catalog built from every cluster of table. */
  ghost predicate CatalogFrom(cat: ClusterCatalog, table: JsonTable)
  {
    CatalogPart(cat, table, table.Keys)
  }

  /** The outer loop of loadFromFile: re-key each cluster's three tables and
      store the cluster under its ID with its JSON key as name. */
  method BuildCatalog(table: JsonTable) returns (cat: ClusterCatalog)
    ensures CatalogFrom(cat, table)
  {
    cat := map[];
    var todo := table.Keys;
    while todo != {}
      invariant todo <= table.Keys
      invariant CatalogPart(cat, table, table.Keys - todo)
      decreases |todo|
    {
      var clusterName :| clusterName in todo;
      var c := table[clusterName];
      var attr := Rekey(c.attributes, AttributeId, AttributeNamed);
      var cmd := Rekey(c.commands, CommandId, CommandNamed);
      var cmdResp := Rekey(c.commandsResponse, CommandId, CommandNamed);
      ghost var done := table.Keys - todo;
      var def := ClusterDefinition(c.id, clusterName, attr, cmd, cmdResp);
      assert ClusterFrom(def, clusterName, c);
      cat := cat[c.id := def];
      todo := todo - {clusterName};
      assert table.Keys - todo == done + {clusterName};
      assert cat.Keys == (set n | n in done + {clusterName} :: table[n].id) by {
        assert (set n | n in done + {clusterName} :: table[n].id) == (set n | n in done :: table[n].id) + {c.id};
      }
    }
  }

  lemma CatalogKeepsEveryCluster(cat: ClusterCatalog, table: JsonTable)
    requires CatalogFrom(cat, table)
    ensures forall n :: n in table ==> table[n].id in cat
    ensures |cat.Keys| <= |table.Keys|
    ensures forall id :: id in cat ==> cat[id].id == id
  {
    forall n | n in table
      ensures table[n].id in cat
    {
      assert table[n].id in (set m | m in table.Keys :: table[m].id);
    }
    ClusterImageSize(table.Keys, table);
  }

  lemma {:induction false} ClusterImageSize(s: set<string>, table: JsonTable)
    requires s <= table.Keys
    ensures |set n | n in s :: table[n].id| <= |s|
    decreases |s|
  {
    if s != {} {
      var x :| x in s;
      ClusterImageSize(s - {x}, table);
      assert (set n | n in s :: table[n].id) == (set n | n in s - {x} :: table[n].id) + {table[x].id};
    }
  }

  // ---------------------------------------------------------------------
  // Loading and lookup.

  /** What json.Unmarshal made of the file: the table, or an error together
      with whatever it had filled in before stopping (possibly nothing). */
  datatype DecodeOutcome = Decoded(table: JsonTable) | DecodeFailed(partial: JsonTable)

  /** The schema file: absent (os.IsNotExist), or present with its decoding. */
  datatype SchemaFile = Missing | Present(decoded: DecodeOutcome)

  /** The current loader gives up on a decode error; the earlier two ignore it. */
  datatype ErrorPolicy = ChecksDecodeErrors | IgnoresDecodeErrors

  function TableOf(d: DecodeOutcome): JsonTable
  {
    match d
    case Decoded(t) => t
    case DecodeFailed(partial) => partial
  }

  /** loadFromFile / Load: nil for a missing file, nil on a decode error when
      errors are checked, otherwise the re-keyed catalog of what was decoded. */
  method LoadFromFile(file: SchemaFile, policy: ErrorPolicy) returns (r: Option<ClusterCatalog>)
    ensures r.None? <==> file.Missing? || (file.decoded.DecodeFailed? && policy == ChecksDecodeErrors)
    ensures r.Some? ==> CatalogFrom(r.value, TableOf(file.decoded))
  {
    if file.Missing? {
      return None;
    }
    if file.decoded.DecodeFailed? && policy == ChecksDecodeErrors {
      return None;
    }
    var cat := BuildCatalog(TableOf(file.decoded));
    return Some(cat);
  }

  /** An ignored decode error still yields a catalog, possibly an empty one. */
  lemma IgnoredErrorYieldsEmptyCatalog(cat: ClusterCatalog)
    requires CatalogFrom(cat, map[])
    ensures cat == map[]
  {
  }

  /** The catalog service, or the process exit that log.Fatalf causes. */
  datatype Startup = Running(catalog: ClusterCatalog) | Fatal

  /** New: the current loader; a nil result aborts the process. */
  method New(file: SchemaFile) returns (s: Startup)
    ensures s.Fatal? <==> file.Missing? || file.decoded.DecodeFailed?
    ensures s.Running? ==> CatalogFrom(s.catalog, file.decoded.table)
  {
    var loaded := LoadFromFile(file, ChecksDecodeErrors);
    if loaded.None? {
      return Fatal;
    }
    return Running(loaded.value);
  }

  /** GetById: a map read, so an unknown cluster yields the zero value. */
  function GetById(cat: ClusterCatalog, clusterId: U16): ClusterDefinition
  {
    if clusterId in cat then cat[clusterId] else ZeroCluster
  }

  /** `def.Attributes[id].Name`: the schema name, or "" for an unknown attribute. */
  function AttributeName(def: ClusterDefinition, attrId: U16): string
  {
    if attrId in def.attributes then def.attributes[attrId].name else ""
  }

  /** An unknown cluster names no attribute and reports ID 0 and name "". */
  lemma UnknownClusterIsBlank(cat: ClusterCatalog, clusterId: U16, attrId: U16)
    requires clusterId !in cat
    ensures GetById(cat, clusterId).id == 0 && GetById(cat, clusterId).name == ""
    ensures AttributeName(GetById(cat, clusterId), attrId) == ""
  {
  }

  /** A known cluster of a loaded catalog names each attribute by its JSON key. */
  lemma LookupNamesAttributes(cat: ClusterCatalog, table: JsonTable, clusterId: U16, attrId: U16)
    requires CatalogFrom(cat, table)
    requires clusterId in cat && attrId in GetById(cat, clusterId).attributes
    ensures exists n, a ::
      && n in table && table[n].id == clusterId
      && a in table[n].attributes && table[n].attributes[a].id == attrId
      && AttributeName(GetById(cat, clusterId), attrId) == a
  {
    var n :| n in table.Keys && table[n].id == clusterId && ClusterFrom(cat[clusterId], n, table[n]);
    var attrs := table[n].attributes;
    var a :| a in attrs.Keys && AttributeId(attrs[a]) == attrId &&
      cat[clusterId].attributes[attrId] == AttributeNamed(attrs[a], a);
  }
}
