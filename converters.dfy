/**
 * Conversion of query definitions into tool schemas for the tool protocol
 * server: a namespaced tool name, a description, a JSON-schema description
 * of the parameters and a little metadata.
 */
module Converters {
  import opened Wrappers
  import opened Text
  import OrderedDict
  import opened Models

  /** Group name to the query ids it lists, in declaration order. */
  type Groups = OrderedDict.Dict<seq<string>>

  /** The built-in grouping used when none (or an empty one) is given. */
  const TOOL_GROUPS: Groups := [
    ("account_tools", ["account_lookup", "user_lookup", "inactive_users"]),
    ("metric_tools", ["metric_beacon_impressions", "metric_raw_beacons"]),
    ("data_quality_tools", ["missing_aggregation", "report_beacon_mismatch", "dashboards_missing_data", "duplicate_accounts"]),
    ("system_tools", ["data_source_check", "tableau_dashboards", "refresh_capacity"])
  ]

  const UNGROUPED := "ungrouped"
  const DATE_SUFFIX := " in YYYY-MM-DD format"

  /** The JSON schema of one parameter. */
  datatype Property = Property(jsonType: string, description: string, format: Option<string>)

  datatype ToolMetadata = ToolMetadata(group: string, queryId: string, cacheTtl: int)

  /** The schema of one tool; its input schema is always of type "object". */
  datatype ToolSchema = ToolSchema(
    name: string,
    description: string,
    inputType: string,
    properties: OrderedDict.Dict<Property>,
    required: seq<string>,
    metadata: ToolMetadata)

  // ---------------------------------------------------------------------
  // The reverse group map.

  /** The grouping a converter uses: the argument unless it is missing or empty. */
  function ChosenGroups(toolGroups: Option<Groups>): (g: Groups)
    ensures toolGroups.Some? && toolGroups.value != [] ==> g == toolGroups.value
    ensures toolGroups.None? || toolGroups.value == [] ==> g == TOOL_GROUPS
  {
    if toolGroups.Some? && toolGroups.value != [] then toolGroups.value else TOOL_GROUPS
  }

  /** The (query id, group) assignments one group makes, in its listing order. */
  function GroupPairs(g: (string, seq<string>)): (ps: seq<(string, string)>)
    ensures |ps| == |g.1| && forall i :: 0 <= i < |ps| ==> ps[i] == (g.1[i], g.0)
  {
    seq(|g.1|, i requires 0 <= i < |g.1| => (g.1[i], g.0))
  }

  /** Every assignment the nested loop makes, in the order it makes them. */
  function Assignments(groups: Groups): seq<(string, string)>
    decreases |groups|
  {
    if groups == [] then []
    else Assignments(groups[..|groups| - 1]) + GroupPairs(groups[|groups| - 1])
  }

  /** Query id to group: every listed id, sent to the group that lists it, each id once. */
  function ReverseMap(groups: Groups): (m: OrderedDict.Dict<string>)
    ensures OrderedDict.Valid(m)
  {
    OrderedDict.PutAllValid([], Assignments(groups));
    OrderedDict.PutAll([], Assignments(groups))
  }

  /** The last group, in order, that lists `queryId`. */
  function LastGroupListing(groups: Groups, queryId: string): (r: Option<string>)
    ensures r.None? <==> forall i :: 0 <= i < |groups| ==> queryId !in groups[i].1
    ensures r.Some? ==> exists i :: (0 <= i < |groups| && groups[i].0 == r.value && queryId in groups[i].1
      && forall j :: i < j < |groups| ==> queryId !in groups[j].1)
    decreases |groups|
  {
    if groups == [] then None
    else if queryId in groups[|groups| - 1].1 then Some(groups[|groups| - 1].0)
    else
      var r := LastGroupListing(groups[..|groups| - 1], queryId);
      assert forall i :: 0 <= i < |groups| - 1 ==> groups[..|groups| - 1][i] == groups[i];
      r
  }

  /** One group's assignments bind exactly the ids it lists, to itself. */
  lemma GroupPairsBinding(g: (string, seq<string>), queryId: string)
    ensures OrderedDict.LastBinding(GroupPairs(g), queryId) == if queryId in g.1 then Some(g.0) else None
  {
    var ps := GroupPairs(g);
    if queryId in g.1 {
      var i :| 0 <= i < |g.1| && g.1[i] == queryId;
      assert ps[i].0 == queryId;
    }
  }

  /** The binding of the last pair with a key, across two runs of pairs. */
  lemma {:induction false} LastBindingAppend<V>(a: seq<(string, V)>, b: seq<(string, V)>, k: string)
    ensures OrderedDict.LastBinding(a + b, k) ==
      if OrderedDict.LastBinding(b, k).Some? then OrderedDict.LastBinding(b, k) else OrderedDict.LastBinding(a, k)
    decreases |b|
  {
    if b == [] {
      assert a + b == a;
    } else {
      assert (a + b)[..|a + b| - 1] == a + b[..|b| - 1];
      LastBindingAppend(a, b[..|b| - 1], k);
    }
  }

  /** A listed id maps to the last group that lists it; an unlisted id is absent. */
  lemma {:induction false} ReverseMapLastGroupWins(groups: Groups, queryId: string)
    ensures OrderedDict.Get(ReverseMap(groups), queryId) == LastGroupListing(groups, queryId)
    decreases |groups|
  {
    OrderedDict.GetPutAll([], Assignments(groups), queryId);
    AssignmentsBinding(groups, queryId);
  }

  lemma {:induction false} AssignmentsBinding(groups: Groups, queryId: string)
    ensures OrderedDict.LastBinding(Assignments(groups), queryId) == LastGroupListing(groups, queryId)
    decreases |groups|
  {
    if groups != [] {
      var front := groups[..|groups| - 1];
      var last := groups[|groups| - 1];
      AssignmentsBinding(front, queryId);
      LastBindingAppend(Assignments(front), GroupPairs(last), queryId);
      GroupPairsBinding(last, queryId);
    }
  }

  // ---------------------------------------------------------------------
  // One definition.

  /** The tool name before namespacing: the configured name, else the trigger in snake case. */
  function ToolName(def: QueryDefinition): (n: string)
    ensures def.mcp.Some? && def.mcp.value.name != [] ==> n == def.mcp.value.name
    ensures !(def.mcp.Some? && def.mcp.value.name != []) ==>
              |n| == |def.trigger|
              && forall i :: 0 <= i < |n| ==> n[i] == if def.trigger[i] == ' ' then '_' else LowerChar(def.trigger[i])
  {
    if def.mcp.Some? && def.mcp.value.name != [] then def.mcp.value.name
    else Lower(ReplaceChar(def.trigger, ' ', '_'))
  }

  /** A tool name never holds a space when a configured name is space-free, as validation ensures. */
  lemma ToolNameHasNoSpace(def: QueryDefinition)
    requires def.mcp.Some? ==> ValidateMcpName(def.mcp.value.name).Ok?
    ensures ' ' !in ToolName(def)
  {
    var n := ToolName(def);
    if !(def.mcp.Some? && def.mcp.value.name != []) {
      forall i | 0 <= i < |n| ensures n[i] != ' ' {
      }
    }
  }

  /** The group: the configured one, else the reverse map's, else "ungrouped". */
  function GroupFor(reverse: OrderedDict.Dict<string>, queryId: string, def: QueryDefinition): (g: string)
    ensures def.mcp.Some? && def.mcp.value.group != [] ==> g == def.mcp.value.group
    ensures !(def.mcp.Some? && def.mcp.value.group != []) && OrderedDict.Get(reverse, queryId).Some? ==>
              g == OrderedDict.Get(reverse, queryId).value
    ensures !(def.mcp.Some? && def.mcp.value.group != []) && OrderedDict.Get(reverse, queryId).None? ==> g == UNGROUPED
  {
    if def.mcp.Some? && def.mcp.value.group != [] then def.mcp.value.group
    else OrderedDict.Get(reverse, queryId).GetOr(UNGROUPED)
  }

  /** The description: the configured override when non-empty, else the definition's own. */
  function DescriptionFor(def: QueryDefinition): (d: string)
    ensures def.mcp.Some? && def.mcp.value.description.Some? && def.mcp.value.description.value != [] ==>
              d == def.mcp.value.description.value
    ensures !(def.mcp.Some? && def.mcp.value.description.Some? && def.mcp.value.description.value != []) ==>
              d == def.description
  {
    if def.mcp.Some? && def.mcp.value.description.Some? && def.mcp.value.description.value != [] then
      def.mcp.value.description.value
    else def.description
  }

  /** The JSON type of a parameter type; types other than "int" become "string". */
  function JsonType(paramType: string): (t: string)
    ensures t == "integer" <==> paramType == "int"
    ensures t != "integer" ==> t == "string"
  {
    if paramType == "int" then "integer" else "string"
  }

  /** The schema of one parameter; only dates get a format and the format hint. */
  function PropertyFor(p: QueryParameter): (r: Property)
    ensures r.jsonType == JsonType(p.paramType)
    ensures r.format.Some? <==> p.paramType == "date"
    ensures r.format.Some? ==> r.format.value == "date" && r.description == p.name + " (date)" + DATE_SUFFIX
    ensures r.format.None? ==> r.description == p.name + " (" + p.paramType + ")"
  {
    var base := p.name + " (" + p.paramType + ")";
    if JsonType(p.paramType) == "string" && p.paramType == "date" then
      Property("string", base + DATE_SUFFIX, Some("date"))
    else
      Property(JsonType(p.paramType), base, None)
  }

  /** The (name, schema) assignments of a parameter list, in declaration order. */
  function PropertyPairs(ps: seq<QueryParameter>): (r: seq<(string, Property)>)
    ensures |r| == |ps| && forall i :: 0 <= i < |ps| ==> r[i] == (ps[i].name, PropertyFor(ps[i]))
  {
    seq(|ps|, i requires 0 <= i < |ps| => (ps[i].name, PropertyFor(ps[i])))
  }

  /** The names of the required parameters, in declaration order: none exactly when no parameter is required. */
  function RequiredNames(ps: seq<QueryParameter>): (r: seq<string>)
    ensures |r| <= |ps|
    ensures r == [] <==> forall i :: 0 <= i < |ps| ==> !ps[i].required
    decreases |ps|
  {
    if ps == [] then []
    else
      var front := ps[..|ps| - 1];
      assert forall i :: 0 <= i < |front| ==> front[i] == ps[i];
      RequiredNames(front) + (if ps[|ps| - 1].required then [ps[|ps| - 1].name] else [])
  }

  /** One more parameter adds its name to the required list when it is required. */
  lemma RequiredNamesStep(ps: seq<QueryParameter>, i: nat)
    requires i < |ps|
    ensures RequiredNames(ps[..i + 1]) == RequiredNames(ps[..i]) + (if ps[i].required then [ps[i].name] else [])
  {
    assert ps[..i + 1][..i] == ps[..i];
  }

  /** A name is listed as required exactly when some required parameter has it. */
  lemma {:induction false} RequiredNamesMembers(ps: seq<QueryParameter>, n: string)
    ensures n in RequiredNames(ps) <==> exists i :: 0 <= i < |ps| && ps[i].required && ps[i].name == n
    decreases |ps|
  {
    if ps != [] {
      var front := ps[..|ps| - 1];
      RequiredNamesMembers(front, n);
      if exists i :: 0 <= i < |front| && front[i].required && front[i].name == n {
        var i :| 0 <= i < |front| && front[i].required && front[i].name == n;
        assert ps[i] == front[i];
      }
      if exists i :: 0 <= i < |ps| && ps[i].required && ps[i].name == n {
        var i :| 0 <= i < |ps| && ps[i].required && ps[i].name == n;
        if i < |front| {
          assert front[i] == ps[i];
        }
      }
    }
  }

  /** When every parameter is required, the list is every name in declaration order. */
  lemma {:induction false} AllRequiredListsEveryName(ps: seq<QueryParameter>)
    requires forall i :: 0 <= i < |ps| ==> ps[i].required
    ensures RequiredNames(ps) == seq(|ps|, i requires 0 <= i < |ps| => ps[i].name)
    decreases |ps|
  {
    if ps != [] {
      AllRequiredListsEveryName(ps[..|ps| - 1]);
    }
  }

  /** The schema `convert` returns. */
  function ToolFor(reverse: OrderedDict.Dict<string>, queryId: string, def: QueryDefinition): (t: ToolSchema)
    ensures t.name == t.metadata.group + "." + ToolName(def)
    ensures t.metadata == ToolMetadata(GroupFor(reverse, queryId, def), queryId, def.cacheTtlSeconds)
    ensures t.description == DescriptionFor(def)
    ensures t.inputType == "object"
    ensures t.properties == OrderedDict.PutAll([], PropertyPairs(def.parameters))
    ensures t.required == RequiredNames(def.parameters)
  {
    var group := GroupFor(reverse, queryId, def);
    ToolSchema(
      group + "." + ToolName(def),
      DescriptionFor(def),
      "object",
      OrderedDict.PutAll([], PropertyPairs(def.parameters)),
      RequiredNames(def.parameters),
      ToolMetadata(group, queryId, def.cacheTtlSeconds))
  }

  /**
   * The group of a converted definition without a configured group is the
   * last group of the converter's grouping that lists its id, else
   * "ungrouped".
   */
  lemma ConvertedGroup(groups: Groups, queryId: string, def: QueryDefinition)
    ensures var g := ToolFor(ReverseMap(groups), queryId, def).metadata.group;
            && (def.mcp.Some? && def.mcp.value.group != [] ==> g == def.mcp.value.group)
            && (!(def.mcp.Some? && def.mcp.value.group != []) ==> g == LastGroupListing(groups, queryId).GetOr(UNGROUPED))
  {
    ReverseMapLastGroupWins(groups, queryId);
  }

  /**
   * Every declared parameter has a property; a name declared twice keeps the
   * schema of its last declaration; nothing else has one.
   */
  lemma ToolPropertiesByName(reverse: OrderedDict.Dict<string>, queryId: string, def: QueryDefinition, n: string)
    ensures OrderedDict.Get(ToolFor(reverse, queryId, def).properties, n) ==
      OrderedDict.LastBinding(PropertyPairs(def.parameters), n)
  {
    OrderedDict.GetPutAll([], PropertyPairs(def.parameters), n);
  }

  /** The inner loop of the constructor: every id of one group is sent to it. */
  method AssignGroup(reverse: OrderedDict.Dict<string>, group: string, ids: seq<string>)
    returns (r: OrderedDict.Dict<string>)
    ensures r == OrderedDict.PutAll(reverse, GroupPairs((group, ids)))
  {
    r := reverse;
    ghost var pairs := GroupPairs((group, ids));
    for j := 0 to |ids|
      invariant r == OrderedDict.PutAll(reverse, pairs[..j])
    {
      OrderedDict.PutAllPrefix(reverse, pairs, j);
      r := OrderedDict.Put(r, ids[j], group);
    }
    assert pairs[..|ids|] == pairs;
  }

  /** One more group's assignments extend the reverse map of the groups before it. */
  lemma ReverseMapStep(groups: Groups, g: nat, reverse: OrderedDict.Dict<string>)
    requires g < |groups| && reverse == OrderedDict.PutAll([], Assignments(groups[..g]))
    ensures OrderedDict.PutAll(reverse, GroupPairs((groups[g].0, groups[g].1))) == OrderedDict.PutAll([], Assignments(groups[..g + 1]))
  {
    assert groups[..g + 1][..g] == groups[..g];
    OrderedDict.PutAllAppend([], Assignments(groups[..g]), GroupPairs(groups[g]));
  }

  /** The parameter loop of `convert`: the property map and the required list. */
  method ParameterSchema(ps: seq<QueryParameter>) returns (properties: OrderedDict.Dict<Property>, required: seq<string>)
    ensures properties == OrderedDict.PutAll([], PropertyPairs(ps))
    ensures required == RequiredNames(ps)
  {
    properties := [];
    required := [];
    for i := 0 to |ps|
      invariant properties == OrderedDict.PutAll([], PropertyPairs(ps)[..i])
      invariant required == RequiredNames(ps[..i])
    {
      RequiredNamesStep(ps, i);
      var p := ps[i];
      var jsonType := JsonType(p.paramType);
      var property := Property(jsonType, p.name + " (" + p.paramType + ")", None);
      if jsonType == "string" && p.paramType == "date" {
        property := property.(format := Some("date"), description := property.description + DATE_SUFFIX);
      }
      PropertiesStep(ps, i, properties, property);
      properties := OrderedDict.Put(properties, p.name, property);
      if p.required {
        required := required + [p.name];
      }
    }
    assert PropertyPairs(ps)[..|ps|] == PropertyPairs(ps);
    assert ps[..|ps|] == ps;
  }

  /** One more parameter puts its property under its name. */
  lemma PropertiesStep(ps: seq<QueryParameter>, i: nat, properties: OrderedDict.Dict<Property>, property: Property)
    requires i < |ps| && property == PropertyFor(ps[i])
    requires properties == OrderedDict.PutAll([], PropertyPairs(ps)[..i])
    ensures OrderedDict.Put(properties, ps[i].name, property) == OrderedDict.PutAll([], PropertyPairs(ps)[..i + 1])
  {
    OrderedDict.PutAllPrefix([], PropertyPairs(ps), i);
  }

  // ---------------------------------------------------------------------
  // The converter object.

  class McpConverter {
    const toolGroups: Groups
    const queryToGroup: OrderedDict.Dict<string>

    /** The reverse map is that of the grouping. */
    ghost predicate Valid() {
      queryToGroup == ReverseMap(toolGroups)
    }

    /** Chooses the grouping and fills the reverse map with a nested loop. */
    constructor (groups: Option<Groups>)
      ensures toolGroups == ChosenGroups(groups)
      ensures queryToGroup == ReverseMap(toolGroups)
      ensures Valid()
    {
      var chosen := if groups.Some? && groups.value != [] then groups.value else TOOL_GROUPS;
      var reverse: OrderedDict.Dict<string> := [];
      for g := 0 to |chosen|
        invariant reverse == OrderedDict.PutAll([], Assignments(chosen[..g]))
      {
        ReverseMapStep(chosen, g, reverse);
        reverse := AssignGroup(reverse, chosen[g].0, chosen[g].1);
      }
      assert chosen[..|chosen|] == chosen;
      toolGroups := chosen;
      queryToGroup := reverse;
    }

    /** `convert`: the properties and the required list are built by one loop over the parameters. */
    method Convert(queryId: string, def: QueryDefinition) returns (t: ToolSchema)
      requires Valid()
      ensures t == ToolFor(queryToGroup, queryId, def)
      ensures !(def.mcp.Some? && def.mcp.value.group != []) ==>
                t.metadata.group == LastGroupListing(toolGroups, queryId).GetOr(UNGROUPED)
    {
      ConvertedGroup(toolGroups, queryId, def);
      var toolName;
      if def.mcp.Some? && def.mcp.value.name != [] {
        toolName := def.mcp.value.name;
      } else {
        toolName := Lower(ReplaceChar(def.trigger, ' ', '_'));
      }
      var group;
      if def.mcp.Some? && def.mcp.value.group != [] {
        group := def.mcp.value.group;
      } else {
        group := OrderedDict.Get(queryToGroup, queryId).GetOr(UNGROUPED);
      }
      var description;
      if def.mcp.Some? && def.mcp.value.description.Some? && def.mcp.value.description.value != [] {
        description := def.mcp.value.description.value;
      } else {
        description := def.description;
      }
      var properties, required := ParameterSchema(def.parameters);
      t := ToolSchema(group + "." + toolName, description, "object", properties, required,
        ToolMetadata(group, queryId, def.cacheTtlSeconds));
    }

    /** `convert_all`: one schema per definition, in index order. */
    method ConvertAll(queries: OrderedDict.Dict<QueryDefinition>) returns (tools: seq<ToolSchema>)
      requires Valid()
      ensures |tools| == |queries|
      ensures forall i :: 0 <= i < |queries| ==> tools[i] == ToolFor(queryToGroup, queries[i].0, queries[i].1)
    {
      ghost var all := seq(|queries|, j requires 0 <= j < |queries| => ToolFor(queryToGroup, queries[j].0, queries[j].1));
      tools := [];
      for i := 0 to |queries|
        invariant tools == all[..i]
      {
        var t := Convert(queries[i].0, queries[i].1);
        Text.PrefixStep(tools, all, i, t);
        tools := tools + [t];
      }
      assert all[..|queries|] == all;
    }
  }
}
