/** The Heat backend's visitor: it turns Compute nodes into a server with port and
    floating IP, and every software-bearing node into one software deployment plus
    one software config per operation that carries artifacts, all recorded in one
    Heat orchestration template. */
module Heat {
  import opened Wrappers
  import opened ModelSupport
  import opened Components
  import opened PluginSupport

  const ServerType := "OS::Nova::Server"
  const PortType := "OS::Neutron::Port"
  const FloatingIpType := "OS::Neutron::FloatingIP"
  const FloatingIpAssociationType := "OS::Neutron::FloatingIPAssociation"
  const SoftwareDeploymentType := "OS::Heat::SoftwareDeployment"
  const SoftwareConfigType := "OS::Heat::SoftwareConfig"

  /** The value assigned to a resource property. */
  datatype PropertyAssignment =
    | PropertyValue(value: string)
    | PropertyGetParam(param: string)
    | PropertyGetResource(resource: string)
    | PropertyList(items: seq<PropertyAssignment>)
    | PropertyPairs(pairs: seq<Pair>)

  datatype Pair = Pair(key: string, value: PropertyAssignment)

  /** A template resource. Adding a property assignment puts it into `properties`;
      adding depends-on names appends them to `dependsOn`. */
  datatype Resource = Resource(
    name: string,
    resourceType: string,
    dependsOn: seq<string>,
    properties: map<string, PropertyAssignment>)

  datatype Parameter = Parameter(name: string, parameterType: string, defaultValue: Option<string>)

  /** A Heat template: adding a resource appends it, adding a parameter puts it
      under its name. */
  datatype Template = Template(name: string, resources: seq<Resource>, parameters: map<string, Parameter>)

  /** Topology nodes are identified by number. The visitor below records servers
      under this identity, which is the corrected lookup: the source keys its
      server map by the component's value, and that as-written lookup is modelled
      separately at the end of this module. */
  type NodeId = nat

  /** The visitor's state: the template under construction; for every visited
      compute, the position in the template of the server resource generated for
      it; and the topology's components, which carry the `transformed` flag. */
  datatype HeatVisitor = HeatVisitor(
    template: Template,
    computeResources: map<NodeId, nat>,
    nodes: map<NodeId, Component>)

  /** The ways a software visit aborts: the IllegalStateException of an instance
      without type, the NullPointerException of an unvisited host, and an
      artifact read failure wrapped as TransformationException. */
  datatype HeatError =
    | IllegalState(modelError: ModelError)
    | NullPointer
    | Transformation(cause: IoFailure)

  // ---------------------------------------------------------------------------
  // Well-formedness of a template

  function ResourceNames(rs: seq<Resource>): set<string>
  {
    set i | 0 <= i < |rs| :: rs[i].name
  }

  /** Every resource an assignment refers to is among `names`, and every parameter
      it reads is among `params`. */
  ghost predicate AssignmentClosed(a: PropertyAssignment, names: set<string>, params: set<string>)
  {
    match a
    case PropertyValue(_) => true
    case PropertyGetParam(p) => p in params
    case PropertyGetResource(x) => x in names
    case PropertyList(items) =>
      forall i :: 0 <= i < |items| ==> AssignmentClosed(items[i], names, params)
    case PropertyPairs(pairs) =>
      forall i :: 0 <= i < |pairs| ==> AssignmentClosed(pairs[i].value, names, params)
  }

  ghost predicate ResourceClosed(r: Resource, names: set<string>, params: set<string>)
  {
    && (forall d :: d in r.dependsOn ==> d in names)
    && (forall k :: k in r.properties ==> AssignmentClosed(r.properties[k], names, params))
  }

  /** Every depends-on edge and every resource reference of the template names a
      resource of the template, and every parameter read is a declared parameter. */
  ghost predicate Closed(t: Template)
  {
    forall i :: 0 <= i < |t.resources| ==>
      ResourceClosed(t.resources[i], ResourceNames(t.resources), t.parameters.Keys)
  }

  /** Every recorded server position is inside the template and holds a server. */
  ghost predicate Valid(v: HeatVisitor)
  {
    forall c :: c in v.computeResources ==>
      v.computeResources[c] < |v.template.resources| &&
      v.template.resources[v.computeResources[c]].resourceType == ServerType
  }

  lemma {:induction false} AssignmentClosedMonotone(a: PropertyAssignment, names: set<string>, names': set<string>, params: set<string>, params': set<string>)
    requires AssignmentClosed(a, names, params)
    requires names <= names' && params <= params'
    ensures AssignmentClosed(a, names', params')
    decreases a
  {
    match a
    case PropertyValue(_) =>
    case PropertyGetParam(_) =>
    case PropertyGetResource(_) =>
    case PropertyList(items) =>
      forall i | 0 <= i < |items| ensures AssignmentClosed(items[i], names', params') {
        AssignmentClosedMonotone(items[i], names, names', params, params');
      }
    case PropertyPairs(pairs) =>
      forall i | 0 <= i < |pairs| ensures AssignmentClosed(pairs[i].value, names', params') {
        AssignmentClosedMonotone(pairs[i].value, names, names', params, params');
      }
  }

  lemma ResourceClosedMonotone(r: Resource, names: set<string>, names': set<string>, params: set<string>, params': set<string>)
    requires ResourceClosed(r, names, params)
    requires names <= names' && params <= params'
    ensures ResourceClosed(r, names', params')
  {
    forall k | k in r.properties ensures AssignmentClosed(r.properties[k], names', params') {
      AssignmentClosedMonotone(r.properties[k], names, names', params, params');
    }
  }

  lemma ResourceNamesAppend(rs: seq<Resource>, extra: seq<Resource>)
    ensures ResourceNames(rs + extra) == ResourceNames(rs) + ResourceNames(extra)
  {
    var all := rs + extra;
    forall x | x in ResourceNames(all) ensures x in ResourceNames(rs) + ResourceNames(extra) {
      var i :| 0 <= i < |all| && all[i].name == x;
      if i >= |rs| {
        assert extra[i - |rs|].name == x;
      }
    }
    forall x | x in ResourceNames(rs) + ResourceNames(extra) ensures x in ResourceNames(all) {
      if x in ResourceNames(rs) {
        var i :| 0 <= i < |rs| && rs[i].name == x;
        assert all[i].name == x;
      } else {
        var i :| 0 <= i < |extra| && extra[i].name == x;
        assert all[|rs| + i].name == x;
      }
    }
  }

  /** Appending resources that are closed over the grown template, and declaring
      more parameters, keeps a closed template closed. */
  lemma ClosedAppend(t: Template, extra: seq<Resource>, params: map<string, Parameter>)
    requires Closed(t)
    requires t.parameters.Keys <= params.Keys
    requires forall i :: 0 <= i < |extra| ==>
      ResourceClosed(extra[i], ResourceNames(t.resources + extra), params.Keys)
    ensures Closed(t.(resources := t.resources + extra, parameters := params))
  {
    var all := t.resources + extra;
    ResourceNamesAppend(t.resources, extra);
    forall i | 0 <= i < |all| ensures ResourceClosed(all[i], ResourceNames(all), params.Keys) {
      if i < |t.resources| {
        ResourceClosedMonotone(t.resources[i], ResourceNames(t.resources), ResourceNames(all), t.parameters.Keys, params.Keys);
      } else {
        assert all[i] == extra[i - |t.resources|];
      }
    }
  }

  // ---------------------------------------------------------------------------
  // Visiting a compute

  const ComputeParameterNames: set<string> := {"key_name", "image", "flavor", "network", "security_group"}

  function PortResource(n: string): Resource
  {
    Resource(n + "_port", PortType, [], map[
      "network" := PropertyGetParam("network"),
      "security_groups" := PropertyList([PropertyGetParam("security_group")])])
  }

  function ServerResource(n: string): Resource
  {
    Resource(n, ServerType, [n + "_port"], map[
      "key_name" := PropertyGetParam("key_name"),
      "image" := PropertyGetParam("image"),
      "flavor" := PropertyGetParam("flavor"),
      "networks" := PropertyPairs([Pair("port", PropertyGetResource(n + "_port"))])])
  }

  function FloatingIpResource(n: string): Resource
  {
    Resource(n + "_floating_ip", FloatingIpType, [n + "_port"], map[
      "floating_network" := PropertyGetParam("network"),
      "port_id" := PropertyGetResource(n + "_port")])
  }

  function FloatingIpAssociationResource(n: string): Resource
  {
    Resource(n + "_floating_ip_association", FloatingIpAssociationType, [n + "_floating_ip", n + "_port"], map[
      "floatingip_id" := PropertyGetResource(n + "_floating_ip"),
      "port_id" := PropertyGetResource(n + "_port")])
  }

  /** The five template parameters a compute needs, keyed by name. */
  function ComputeParameters(): map<string, Parameter>
  {
    map[
      "key_name" := Parameter("key_name", "string", None),
      "image" := Parameter("image", "string", None),
      "flavor" := Parameter("flavor", "string", None),
      "network" := Parameter("network", "string", Some("default")),
      "security_group" := Parameter("security_group", "string", Some("default"))]
  }

  /** The four resources of a compute with normalized name `n`, in the order added. */
  function ComputeResources(n: string): seq<Resource>
  {
    [PortResource(n), ServerResource(n), FloatingIpResource(n), FloatingIpAssociationResource(n)]
  }

  /** The resources of a compute refer only to each other and to the compute parameters. */
  lemma ComputeResourcesClosed(t: Template, n: string)
    requires Closed(t)
    ensures Closed(t.(resources := t.resources + ComputeResources(n),
                      parameters := t.parameters + ComputeParameters()))
    ensures forall i :: 0 <= i < 4 ==>
      ResourceClosed(ComputeResources(n)[i], ResourceNames(ComputeResources(n)), ComputeParameterNames)
  {
    var added := ComputeResources(n);
    var params := t.parameters + ComputeParameters();
    var names := ResourceNames(t.resources + added);
    ResourceNamesAppend(t.resources, added);
    assert added[0].name in ResourceNames(added);
    assert added[2].name in ResourceNames(added);
    assert ResourceClosed(added[0], names, params.Keys) by {
      var items := [PropertyGetParam("security_group")];
      assert AssignmentClosed(items[0], names, params.Keys);
    }
    assert ResourceClosed(added[1], names, params.Keys) by {
      var pairs := [Pair("port", PropertyGetResource(n + "_port"))];
      assert AssignmentClosed(pairs[0].value, names, params.Keys);
    }
    assert ResourceClosed(added[2], names, params.Keys);
    assert ResourceClosed(added[3], names, params.Keys);
    ClosedAppend(t, added, params);
    ComputeResourcesSelfContained(n);
  }

  /** The resources of a compute refer only to each other and to the compute
      parameters, whatever template they are added to. */
  lemma ComputeResourcesSelfContained(n: string)
    ensures forall i :: 0 <= i < 4 ==>
      ResourceClosed(ComputeResources(n)[i], ResourceNames(ComputeResources(n)), ComputeParameterNames)
  {
    var added := ComputeResources(n);
    var own := ResourceNames(added);
    assert added[0].name in own && added[2].name in own;
    assert ResourceClosed(added[0], own, ComputeParameterNames) by {
      var items := [PropertyGetParam("security_group")];
      assert AssignmentClosed(items[0], own, ComputeParameterNames);
    }
    assert ResourceClosed(added[1], own, ComputeParameterNames) by {
      var pairs := [Pair("port", PropertyGetResource(n + "_port"))];
      assert AssignmentClosed(pairs[0].value, own, ComputeParameterNames);
    }
    assert ResourceClosed(added[2], own, ComputeParameterNames);
    assert ResourceClosed(added[3], own, ComputeParameterNames);
  }

  /** Visits a compute with normalized name `normalize(name)`: appends its port,
      server, floating IP and floating IP association, declares the five compute
      parameters, records the server for the compute and marks it transformed. */
  function VisitCompute(v: HeatVisitor, id: NodeId, normalize: string -> string): (r: HeatVisitor)
    requires id in v.nodes && v.nodes[id].kind.Compute?
    ensures Valid(v) ==> Valid(r)
    ensures Closed(v.template) ==> Closed(r.template)
    ensures r.nodes == v.nodes[id := MarkTransformed(v.nodes[id])]
    ensures r.template.name == v.template.name
    ensures |r.template.resources| == |v.template.resources| + 4
    ensures r.template.resources[..|v.template.resources|] == v.template.resources
    ensures r.computeResources == v.computeResources[id := |v.template.resources| + 1]
    ensures r.template.parameters.Keys == v.template.parameters.Keys + ComputeParameterNames
    ensures forall p :: p in r.template.parameters && p !in ComputeParameterNames ==>
      r.template.parameters[p] == v.template.parameters[p]
  {
    var n := normalize(v.nodes[id].name);
    var t := v.template.(resources := v.template.resources + ComputeResources(n),
                         parameters := v.template.parameters + ComputeParameters());
    assert t.resources[..|v.template.resources|] == v.template.resources;
    assert t.resources[|v.template.resources| + 1] == ServerResource(n);
    assert Closed(v.template) ==> Closed(t) by {
      if Closed(v.template) {
        ComputeResourcesClosed(v.template, n);
      }
    }
    HeatVisitor(t, v.computeResources[id := |v.template.resources| + 1],
      v.nodes[id := MarkTransformed(v.nodes[id])])
  }

  /** The resources a compute visit adds: their names from the compute's normalized
      name, their types and their depends-on edges (the server, the floating IP and
      the association all wait for the port; the association also waits for the
      floating IP); and the parameters it declares, where only network and
      security group have the default "default". */
  lemma VisitComputeOutput(v: HeatVisitor, id: NodeId, normalize: string -> string)
    requires id in v.nodes && v.nodes[id].kind.Compute?
    ensures var r := VisitCompute(v, id, normalize);
            var n := normalize(v.nodes[id].name);
            var added := r.template.resources[|v.template.resources|..];
            && |added| == 4
            && added[0].name == n + "_port" && added[0].resourceType == PortType
            && added[0].dependsOn == []
            && added[1].name == n && added[1].resourceType == ServerType
            && added[1].dependsOn == [n + "_port"]
            && added[2].name == n + "_floating_ip" && added[2].resourceType == FloatingIpType
            && added[2].dependsOn == [n + "_port"]
            && added[3].name == n + "_floating_ip_association"
            && added[3].resourceType == FloatingIpAssociationType
            && added[3].dependsOn == [n + "_floating_ip", n + "_port"]
            && r.template.resources[r.computeResources[id]] == added[1]
            && r.template.parameters["key_name"].defaultValue == None
            && r.template.parameters["image"].defaultValue == None
            && r.template.parameters["flavor"].defaultValue == None
            && r.template.parameters["network"].defaultValue == Some("default")
            && r.template.parameters["security_group"].defaultValue == Some("default")
  {
    var r := VisitCompute(v, id, normalize);
    var n := normalize(v.nodes[id].name);
    assert r.template.resources[|v.template.resources|..] == ComputeResources(n);
  }

  // ---------------------------------------------------------------------------
  // Visiting a software-bearing component

  function DeploymentName(componentName: string, operationName: string): string
  {
    componentName + "_" + operationName
  }

  function ConfigName(deploymentName: string): string
  {
    deploymentName + "_config"
  }

  /** The software deployment of one operation, bound to the server and its config. */
  function DeploymentResource(deploymentName: string, serverName: string): (r: Resource)
    ensures r.name == deploymentName && r.resourceType == SoftwareDeploymentType
    ensures r.dependsOn == [serverName, ConfigName(deploymentName)]
  {
    Resource(deploymentName, SoftwareDeploymentType, [serverName, ConfigName(deploymentName)], map[
      "config" := PropertyGetResource(ConfigName(deploymentName)),
      "server" := PropertyGetResource(serverName)])
  }

  /** The script config of one operation, holding the artifact's content. */
  function ConfigResource(deploymentName: string, content: string): (r: Resource)
    ensures r.name == ConfigName(deploymentName) && r.resourceType == SoftwareConfigType
    ensures r.dependsOn == []
    ensures "group" in r.properties && r.properties["group"] == PropertyValue("script")
  {
    Resource(ConfigName(deploymentName), SoftwareConfigType, [], map[
      "group" := PropertyValue("script"),
      "config" := PropertyValue(content)])
  }

  /** The path of the one artifact of an operation that is used: the first. */
  function ArtifactPath(op: Operation): string
    requires op.HasArtifacts()
  {
    op.artifacts[0].value
  }

  function CountWithArtifacts(ops: seq<Operation>): nat
  {
    if ops == [] then 0
    else (if ops[0].HasArtifacts() then 1 else 0) + CountWithArtifacts(ops[1..])
  }

  /** Every operation that carries artifacts has a readable first artifact. */
  ghost predicate Readable(ops: seq<Operation>, fa: FileAccess)
  {
    forall i :: 0 <= i < |ops| && ops[i].HasArtifacts() ==> ArtifactPath(ops[i]) in fa.files
  }

  lemma ReadableCons(ops: seq<Operation>, fa: FileAccess)
    requires ops != []
    ensures Readable(ops, fa) <==>
      (ops[0].HasArtifacts() ==> ArtifactPath(ops[0]) in fa.files) && Readable(ops[1..], fa)
  {
    assert forall i :: 1 <= i < |ops| ==> ops[i] == ops[1..][i - 1];
  }

  /** `x` is the deployment or the config generated for an operation of `ops`. */
  ghost predicate GeneratedFor(x: Resource, componentName: string, serverName: string,
                               ops: seq<Operation>, fa: FileAccess, normalize: string -> string)
  {
    exists i :: 0 <= i < |ops| && GeneratedForOperation(x, componentName, serverName, ops[i], fa, normalize)
  }

  /** `x` is the deployment or the config generated for `op`. */
  ghost predicate GeneratedForOperation(x: Resource, componentName: string, serverName: string,
                                        op: Operation, fa: FileAccess, normalize: string -> string)
  {
    && op.HasArtifacts()
    && ArtifactPath(op) in fa.files
    && var d := DeploymentName(componentName, normalize(op.name));
       (x == DeploymentResource(d, serverName) || x == ConfigResource(d, fa.files[ArtifactPath(op)]))
  }

  /** Generates, in order, the deployment and config of every operation carrying
      artifacts; the first unreadable artifact aborts with the I/O failure wrapped
      as TransformationException. */
  function DeployOperations(componentName: string, serverName: string, ops: seq<Operation>,
                            fa: FileAccess, normalize: string -> string): (r: Result<seq<Resource>, HeatError>)
    ensures r.Success? <==> Readable(ops, fa)
    ensures r.Success? ==> |r.value| == 2 * CountWithArtifacts(ops)
    ensures r.Failure? ==> r.error.Transformation?
    decreases |ops|
  {
    if ops == [] then Success([])
    else
      ReadableCons(ops, fa);
      if !ops[0].HasArtifacts() then DeployOperations(componentName, serverName, ops[1..], fa, normalize)
      else
        match ReadToString(fa, ArtifactPath(ops[0]))
        case Failure(e) => Failure(Transformation(e))
        case Success(content) =>
          var d := DeploymentName(componentName, normalize(ops[0].name));
          match DeployOperations(componentName, serverName, ops[1..], fa, normalize)
          case Failure(e) => Failure(e)
          case Success(tail) => Success([DeploymentResource(d, serverName), ConfigResource(d, content)] + tail)
  }

  /** A failed generation reports the first operation whose artifact cannot be read. */
  lemma {:induction false} DeployOperationsFailure(componentName: string, serverName: string, ops: seq<Operation>,
                                                   fa: FileAccess, normalize: string -> string)
    ensures var r := DeployOperations(componentName, serverName, ops, fa, normalize);
            r.Failure? ==> exists i :: (0 <= i < |ops| && ops[i].HasArtifacts() &&
                                        ArtifactPath(ops[i]) !in fa.files &&
                                        r.error == Transformation(IoFailure(ArtifactPath(ops[i]))) &&
                                        Readable(ops[..i], fa))
    decreases |ops|
  {
    var r := DeployOperations(componentName, serverName, ops, fa, normalize);
    if ops != [] && r.Failure? {
      var rest := DeployOperations(componentName, serverName, ops[1..], fa, normalize);
      if ops[0].HasArtifacts() && ArtifactPath(ops[0]) !in fa.files {
        assert ops[..0] == [];
      } else {
        DeployOperationsFailure(componentName, serverName, ops[1..], fa, normalize);
        var j :| 0 <= j < |ops[1..]| && ops[1..][j].HasArtifacts() &&
          ArtifactPath(ops[1..][j]) !in fa.files &&
          rest.error == Transformation(IoFailure(ArtifactPath(ops[1..][j]))) &&
          Readable(ops[1..][..j], fa);
        ReadableCons(ops[..j + 1], fa);
        assert ops[..j + 1][1..] == ops[1..][..j];
        assert ops[j + 1] == ops[1..][j];
      }
    }
  }

  /** A successful generation yields exactly the deployments and configs of the
      operations that carry artifacts. */
  lemma {:induction false} DeployOperationsContents(componentName: string, serverName: string, ops: seq<Operation>,
                                                    fa: FileAccess, normalize: string -> string)
    ensures var r := DeployOperations(componentName, serverName, ops, fa, normalize);
            r.Success? ==> forall x :: x in r.value <==> GeneratedFor(x, componentName, serverName, ops, fa, normalize)
    decreases |ops|
  {
    var r := DeployOperations(componentName, serverName, ops, fa, normalize);
    if ops != [] && r.Success? {
      DeployOperationsContents(componentName, serverName, ops[1..], fa, normalize);
      var tail := DeployOperations(componentName, serverName, ops[1..], fa, normalize);
      assert tail.Success?;
      var head: seq<Resource> := [];
      if ops[0].HasArtifacts() {
        var d := DeploymentName(componentName, normalize(ops[0].name));
        head := [DeploymentResource(d, serverName), ConfigResource(d, fa.files[ArtifactPath(ops[0])])];
        assert GeneratedForOperation(head[0], componentName, serverName, ops[0], fa, normalize);
        assert GeneratedForOperation(head[1], componentName, serverName, ops[0], fa, normalize);
      }
      assert r.value == head + tail.value;
      forall x ensures x in r.value <==> GeneratedFor(x, componentName, serverName, ops, fa, normalize) {
        if GeneratedFor(x, componentName, serverName, ops, fa, normalize) {
          var i :| 0 <= i < |ops| && GeneratedForOperation(x, componentName, serverName, ops[i], fa, normalize);
          if i > 0 {
            assert ops[1..][i - 1] == ops[i];
            assert GeneratedFor(x, componentName, serverName, ops[1..], fa, normalize);
          }
        }
        if x in tail.value {
          assert GeneratedFor(x, componentName, serverName, ops[1..], fa, normalize);
          var i :| 0 <= i < |ops[1..]| && GeneratedForOperation(x, componentName, serverName, ops[1..][i], fa, normalize);
          assert ops[1..][i] == ops[i + 1];
        }
        if x in head {
          assert GeneratedForOperation(x, componentName, serverName, ops[0], fa, normalize);
        }
      }
    }
  }

  /** The operations of `opMap`, in the order the map is iterated. */
  function InOrder(opMap: map<string, Operation>, order: seq<string>): (ops: seq<Operation>)
    requires forall i :: 0 <= i < |order| ==> order[i] in opMap
    ensures |ops| == |order|
    ensures forall i :: 0 <= i < |order| ==> ops[i] == opMap[order[i]]
  {
    seq(|order|, i requires 0 <= i < |order| => opMap[order[i]])
  }

  /** `order` lists every key of `keys` exactly once. */
  predicate Enumerates(order: seq<string>, keys: set<string>)
  {
    && (forall i :: 0 <= i < |order| ==> order[i] in keys)
    && (forall k :: k in keys ==> k in order)
    && (forall i, j :: 0 <= i < j < |order| ==> order[i] != order[j])
  }

  /** `order` is an iteration order of the entity's effective operation map, when
      there is one. */
  predicate IterationOrder(e: ModelEntity, order: seq<string>)
  {
    GetOperations(e).Success? ==> Enumerates(order, GetOperations(e).value.Keys)
  }

  /** Some operation of the map carries artifacts. */
  ghost predicate HasDeployable(opMap: map<string, Operation>)
  {
    exists k :: k in opMap && opMap[k].HasArtifacts()
  }

  /** Every operation of the map carrying artifacts has a readable first artifact. */
  ghost predicate AllReadable(opMap: map<string, Operation>, fa: FileAccess)
  {
    forall k :: k in opMap && opMap[k].HasArtifacts() ==> ArtifactPath(opMap[k]) in fa.files
  }

  lemma {:induction false} CountPositive(ops: seq<Operation>)
    ensures CountWithArtifacts(ops) > 0 <==> exists i :: 0 <= i < |ops| && ops[i].HasArtifacts()
    decreases |ops|
  {
    if ops != [] {
      CountPositive(ops[1..]);
      assert forall i :: 1 <= i < |ops| ==> ops[i] == ops[1..][i - 1];
      if exists i :: 0 <= i < |ops| && ops[i].HasArtifacts() {
        var i :| 0 <= i < |ops| && ops[i].HasArtifacts();
        if i > 0 {
          assert ops[1..][i - 1].HasArtifacts();
        }
      }
    }
  }

  /** Seen through an iteration order, the operation sequence holds exactly the
      map's operations, so counting and readability carry over. */
  lemma InOrderFacts(opMap: map<string, Operation>, order: seq<string>, fa: FileAccess)
    requires Enumerates(order, opMap.Keys)
    ensures CountWithArtifacts(InOrder(opMap, order)) > 0 <==> HasDeployable(opMap)
    ensures Readable(InOrder(opMap, order), fa) <==> AllReadable(opMap, fa)
  {
    var ops := InOrder(opMap, order);
    forall k | k in opMap ensures exists i :: 0 <= i < |order| && order[i] == k {
      assert k in order;
    }
    CountPositive(ops);
  }

  /** The names of the operations in the map that carry artifacts. */
  ghost function Deployable(opMap: map<string, Operation>): set<string>
  {
    set k | k in opMap && opMap[k].HasArtifacts()
  }

  /** The names among `keys` of operations in the map that carry artifacts. */
  ghost function DeployableAmong(opMap: map<string, Operation>, keys: seq<string>): set<string>
  {
    set k | k in keys && k in opMap && opMap[k].HasArtifacts()
  }

  /** Counting the operations with artifacts along a repetition-free order counts
      the distinct names it passes that carry artifacts. */
  lemma {:induction false} CountAlongOrder(opMap: map<string, Operation>, order: seq<string>)
    requires forall i :: 0 <= i < |order| ==> order[i] in opMap
    requires forall i, j :: 0 <= i < j < |order| ==> order[i] != order[j]
    ensures CountWithArtifacts(InOrder(opMap, order)) == |DeployableAmong(opMap, order)|
    decreases |order|
  {
    if order == [] {
      assert DeployableAmong(opMap, order) == {};
    } else {
      var first := order[0];
      var rest := order[1..];
      CountAlongOrder(opMap, rest);
      assert InOrder(opMap, order)[1..] == InOrder(opMap, rest);
      assert first !in rest by {
        forall j | 0 <= j < |rest| ensures rest[j] != first {
          assert rest[j] == order[j + 1];
        }
      }
      if opMap[first].HasArtifacts() {
        assert DeployableAmong(opMap, order) == DeployableAmong(opMap, rest) + {first};
      } else {
        assert DeployableAmong(opMap, order) == DeployableAmong(opMap, rest);
      }
    }
  }

  /** Through any iteration order, the number of operations with artifacts is the
      number of such operations in the map. */
  lemma DeployableCount(opMap: map<string, Operation>, order: seq<string>)
    requires Enumerates(order, opMap.Keys)
    ensures CountWithArtifacts(InOrder(opMap, order)) == |Deployable(opMap)|
  {
    CountAlongOrder(opMap, order);
    assert DeployableAmong(opMap, order) == Deployable(opMap);
  }

  /** The host's server with its user data switched to software config. */
  function SoftwareConfigServer(server: Resource): (r: Resource)
    ensures r.name == server.name && r.resourceType == server.resourceType && r.dependsOn == server.dependsOn
    ensures r.properties.Keys == server.properties.Keys + {"user_data_format"}
    ensures r.properties["user_data_format"] == PropertyValue("SOFTWARE_CONFIG")
    ensures forall p :: p in server.properties && p != "user_data_format" ==> r.properties[p] == server.properties[p]
  {
    server.(properties := server.properties["user_data_format" := PropertyValue("SOFTWARE_CONFIG")])
  }

  /** The generation for a component on `host`, once the component's operations
      are known in iteration order: nothing when no operation carries artifacts;
      otherwise the host's server must be recorded, and its user data is switched
      to software config and the generated resources are appended. */
  function DeployOnHost(v: HeatVisitor, host: NodeId, componentName: string, ops: seq<Operation>,
                        fa: FileAccess, normalize: string -> string): (r: Result<HeatVisitor, HeatError>)
    requires Valid(v)
    ensures CountWithArtifacts(ops) == 0 ==> r == Success(v)
    ensures r == Failure(NullPointer) <==> CountWithArtifacts(ops) > 0 && host !in v.computeResources
    ensures (r.Failure? && r.error.Transformation?) <==>
      CountWithArtifacts(ops) > 0 && host in v.computeResources && !Readable(ops, fa)
    ensures r.Failure? ==> r.error == NullPointer || r.error.Transformation?
    ensures r.Success? ==> && Valid(r.value) && r.value.nodes == v.nodes
                           && r.value.computeResources == v.computeResources
                           && r.value.template.name == v.template.name
                           && r.value.template.parameters == v.template.parameters
                           && |r.value.template.resources| == |v.template.resources| + 2 * CountWithArtifacts(ops)
  {
    if CountWithArtifacts(ops) == 0 then Success(v)
    else if host !in v.computeResources then Failure(NullPointer)
    else
      var idx := v.computeResources[host];
      var server := v.template.resources[idx];
      match DeployOperations(componentName, server.name, ops, fa, normalize)
      case Failure(e) => Failure(e)
      case Success(generated) =>
        var t := v.template.(resources := v.template.resources[idx := SoftwareConfigServer(server)] + generated);
        assert Valid(v.(template := t)) by {
          forall c' | c' in v.computeResources
            ensures t.resources[v.computeResources[c']].resourceType == ServerType
          {
            assert t.resources[v.computeResources[c']] ==
              v.template.resources[idx := SoftwareConfigServer(server)][v.computeResources[c']];
          }
        }
        Success(v.(template := t))
  }

  /** The layout of a successful generation on a recorded host: the server is
      switched to software config, every other existing resource is untouched,
      and what follows them is exactly the deployments and configs generated for
      the operations carrying artifacts, two per operation. */
  lemma DeployOnHostLayout(v: HeatVisitor, host: NodeId, componentName: string, ops: seq<Operation>,
                           fa: FileAccess, normalize: string -> string)
    requires Valid(v)
    requires host in v.computeResources && CountWithArtifacts(ops) > 0
    requires DeployOnHost(v, host, componentName, ops, fa, normalize).Success?
    ensures var rs := DeployOnHost(v, host, componentName, ops, fa, normalize).value.template.resources;
            var idx := v.computeResources[host];
            var before := |v.template.resources|;
            && |rs| == before + 2 * CountWithArtifacts(ops)
            && rs[idx] == SoftwareConfigServer(v.template.resources[idx])
            && (forall i :: 0 <= i < before && i != idx ==> rs[i] == v.template.resources[i])
            && (forall x :: x in rs[before..] <==>
                 GeneratedFor(x, componentName, v.template.resources[idx].name, ops, fa, normalize))
  {
    var idx := v.computeResources[host];
    var server := v.template.resources[idx];
    var rs := DeployOnHost(v, host, componentName, ops, fa, normalize).value.template.resources;
    DeployOperationsContents(componentName, server.name, ops, fa, normalize);
    assert rs[|v.template.resources|..] == DeployOperations(componentName, server.name, ops, fa, normalize).value;
  }

  /** The generated resources refer only to each other and to the server. */
  lemma {:induction false} DeployOperationsSelfContained(componentName: string, serverName: string, ops: seq<Operation>,
                                                         fa: FileAccess, normalize: string -> string)
    ensures var r := DeployOperations(componentName, serverName, ops, fa, normalize);
            r.Success? ==> forall i :: 0 <= i < |r.value| ==>
              ResourceClosed(r.value[i], ResourceNames(r.value) + {serverName}, {})
    decreases |ops|
  {
    var r := DeployOperations(componentName, serverName, ops, fa, normalize);
    if ops != [] && r.Success? {
      DeployOperationsSelfContained(componentName, serverName, ops[1..], fa, normalize);
      var tail := DeployOperations(componentName, serverName, ops[1..], fa, normalize).value;
      var head: seq<Resource> := [];
      if ops[0].HasArtifacts() {
        var d := DeploymentName(componentName, normalize(ops[0].name));
        head := [DeploymentResource(d, serverName), ConfigResource(d, fa.files[ArtifactPath(ops[0])])];
      }
      assert r.value == head + tail;
      ResourceNamesAppend(head, tail);
      var names := ResourceNames(r.value) + {serverName};
      forall i | 0 <= i < |r.value| ensures ResourceClosed(r.value[i], names, {}) {
        if i < |head| {
          assert head[1].name in ResourceNames(head);
        } else {
          assert r.value[i] == tail[i - |head|];
          ResourceClosedMonotone(tail[i - |head|], ResourceNames(tail) + {serverName}, names, {}, {});
        }
      }
    }
  }

  /** Switching a server to software config keeps a closed template closed. */
  lemma SoftwareConfigServerKeepsClosed(t: Template, idx: nat)
    requires Closed(t) && idx < |t.resources|
    ensures Closed(t.(resources := t.resources[idx := SoftwareConfigServer(t.resources[idx])]))
  {
    var rs := t.resources[idx := SoftwareConfigServer(t.resources[idx])];
    assert ResourceNames(rs) == ResourceNames(t.resources) by {
      forall x | x in ResourceNames(t.resources) ensures x in ResourceNames(rs) {
        var i :| 0 <= i < |t.resources| && t.resources[i].name == x;
        assert rs[i].name == x;
      }
    }
    forall i | 0 <= i < |rs| ensures ResourceClosed(rs[i], ResourceNames(rs), t.parameters.Keys) {
      assert ResourceClosed(t.resources[i], ResourceNames(t.resources), t.parameters.Keys);
    }
  }

  /** Generation on a host keeps every reference of the template resolvable: each
      deployment's server and config are in the template. */
  lemma DeployOnHostKeepsClosed(v: HeatVisitor, host: NodeId, componentName: string, ops: seq<Operation>,
                                fa: FileAccess, normalize: string -> string)
    requires Valid(v) && Closed(v.template)
    ensures var r := DeployOnHost(v, host, componentName, ops, fa, normalize);
            r.Success? ==> Closed(r.value.template)
  {
    var r := DeployOnHost(v, host, componentName, ops, fa, normalize);
    if r.Success? && CountWithArtifacts(ops) > 0 {
      var idx := v.computeResources[host];
      var server := v.template.resources[idx];
      var generated := DeployOperations(componentName, server.name, ops, fa, normalize).value;
      DeployOperationsSelfContained(componentName, server.name, ops, fa, normalize);
      SoftwareConfigServerKeepsClosed(v.template, idx);
      var base := v.template.(resources := v.template.resources[idx := SoftwareConfigServer(server)]);
      assert r.value.template == base.(resources := base.resources + generated);
      var names := ResourceNames(base.resources + generated);
      ResourceNamesAppend(base.resources, generated);
      assert server.name in names by {
        assert base.resources[idx].name == server.name;
      }
      forall i | 0 <= i < |generated| ensures ResourceClosed(generated[i], names, base.parameters.Keys) {
        ResourceClosedMonotone(generated[i], ResourceNames(generated) + {server.name}, names, {}, base.parameters.Keys);
      }
      ClosedAppend(base, generated, base.parameters);
    }
  }

  /** Visits a software-bearing component hosted on `host` (the hosting compute the
      topology resolves, if any). Without a host nothing is generated. Otherwise the
      component's effective operations, in iteration order, are generated on the
      host. A successful visit marks the component transformed and leaves the
      other nodes, the server records and the parameters as they were. */
  function HandleSoftwareDeployment(v: HeatVisitor, id: NodeId, host: Option<NodeId>, order: seq<string>,
                                    fa: FileAccess, normalize: string -> string): (r: Result<HeatVisitor, HeatError>)
    requires Valid(v)
    requires id in v.nodes
    requires IterationOrder(v.nodes[id].model, order)
    ensures r.Success? ==> Valid(r.value)
    ensures r.Success? ==> r.value.nodes == v.nodes[id := MarkTransformed(v.nodes[id])]
    ensures r.Success? ==> r.value.computeResources == v.computeResources
    ensures r.Success? ==> r.value.template.name == v.template.name
    ensures r.Success? ==> r.value.template.parameters == v.template.parameters
    ensures r.Success? ==> |r.value.template.resources| >= |v.template.resources|
    ensures host.None? ==> r.Success? && r.value.template == v.template
  {
    var c := v.nodes[id];
    var marked := v.(nodes := v.nodes[id := MarkTransformed(c)]);
    if host.None? then Success(marked)
    else
      match GetOperations(c.model)
      case Failure(e) => Failure(IllegalState(e))
      case Success(opMap) => DeployOnHost(marked, host.value, normalize(c.name), InOrder(opMap, order), fa, normalize)
  }

  /** When a software visit with a host fails, and which error it raises:
      resolving the operations fails without a type; a missing server is
      dereferenced only when some operation carries artifacts; an unreadable
      artifact is wrapped as TransformationException. */
  lemma SoftwareVisitFailures(v: HeatVisitor, id: NodeId, host: NodeId, order: seq<string>,
                              fa: FileAccess, normalize: string -> string)
    requires Valid(v)
    requires id in v.nodes
    requires IterationOrder(v.nodes[id].model, order)
    ensures var r := HandleSoftwareDeployment(v, id, Some(host), order, fa, normalize);
            var ops := GetOperations(v.nodes[id].model);
            && (r == Failure(IllegalState(NoResolvableType)) <==> ops.Failure?)
            && (r == Failure(NullPointer) <==>
                  ops.Success? && HasDeployable(ops.value) && host !in v.computeResources)
            && ((r.Failure? && r.error.Transformation?) <==>
                  ops.Success? && HasDeployable(ops.value) && host in v.computeResources &&
                  !AllReadable(ops.value, fa))
  {
    var ops := GetOperations(v.nodes[id].model);
    if ops.Success? {
      InOrderFacts(ops.value, order, fa);
    }
  }

  /** What a successful software visit with a host adds, stated over the
      effective operation map. When no operation carries artifacts the template
      is unchanged. Otherwise the host's server gains the software-config user
      data format, the other resources are untouched, every operation with
      artifacts contributes its deployment (bound to the server) and its script
      config, and nothing else is added. */
  lemma SoftwareVisitOutput(v: HeatVisitor, id: NodeId, host: NodeId, order: seq<string>,
                            fa: FileAccess, normalize: string -> string)
    requires Valid(v)
    requires id in v.nodes
    requires IterationOrder(v.nodes[id].model, order)
    requires HandleSoftwareDeployment(v, id, Some(host), order, fa, normalize).Success?
    ensures GetOperations(v.nodes[id].model).Success?
    ensures !HasDeployable(GetOperations(v.nodes[id].model).value) ==>
      HandleSoftwareDeployment(v, id, Some(host), order, fa, normalize).value.template == v.template
    ensures HasDeployable(GetOperations(v.nodes[id].model).value) ==>
      (var rs := HandleSoftwareDeployment(v, id, Some(host), order, fa, normalize).value.template.resources;
       var ops := GetOperations(v.nodes[id].model).value;
       var before := |v.template.resources|;
       && host in v.computeResources
       && |rs| == before + 2 * |Deployable(ops)|
       && rs[..before] == v.template.resources[ServerIndex(v, host) :=
            SoftwareConfigServer(v.template.resources[ServerIndex(v, host)])]
       && forall x :: x in rs[before..] <==> (exists k :: k in ops && GeneratedForOperation(
            x, normalize(v.nodes[id].name), v.template.resources[ServerIndex(v, host)].name, ops[k], fa, normalize)))
  {
    var c := v.nodes[id];
    var opMap := GetOperations(c.model).value;
    var ops := InOrder(opMap, order);
    var marked := v.(nodes := v.nodes[id := MarkTransformed(c)]);
    InOrderFacts(opMap, order, fa);
    if HasDeployable(opMap) {
      var idx := ServerIndex(v, host);
      var server := v.template.resources[idx];
      var cn := normalize(c.name);
      DeployOnHostLayout(marked, host, cn, ops, fa, normalize);
      DeployableCount(opMap, order);
      var before := |v.template.resources|;
      var rs := HandleSoftwareDeployment(v, id, Some(host), order, fa, normalize).value.template.resources;
      assert rs == DeployOnHost(marked, host, cn, ops, fa, normalize).value.template.resources;
      assert rs[..before] == v.template.resources[idx := SoftwareConfigServer(server)];
      forall x ensures x in rs[before..] <==> (exists k :: k in opMap && GeneratedForOperation(x, cn, server.name, opMap[k], fa, normalize)) {
        if x in rs[before..] {
          assert GeneratedFor(x, cn, server.name, ops, fa, normalize);
          var i :| 0 <= i < |ops| && GeneratedForOperation(x, cn, server.name, ops[i], fa, normalize);
          assert order[i] in opMap && opMap[order[i]] == ops[i];
        }
        if exists k :: k in opMap && GeneratedForOperation(x, cn, server.name, opMap[k], fa, normalize) {
          var k :| k in opMap && GeneratedForOperation(x, cn, server.name, opMap[k], fa, normalize);
          assert k in order;
          var i :| 0 <= i < |order| && order[i] == k;
          assert GeneratedForOperation(x, cn, server.name, ops[i], fa, normalize);
        }
      }
    }
  }

  /** A successful software visit keeps every reference of the template resolvable. */
  lemma SoftwareVisitKeepsClosed(v: HeatVisitor, id: NodeId, host: Option<NodeId>, order: seq<string>,
                                 fa: FileAccess, normalize: string -> string)
    requires Valid(v)
    requires id in v.nodes
    requires IterationOrder(v.nodes[id].model, order)
    requires Closed(v.template)
    ensures var r := HandleSoftwareDeployment(v, id, host, order, fa, normalize);
            r.Success? ==> Closed(r.value.template)
  {
    var c := v.nodes[id];
    var marked := v.(nodes := v.nodes[id := MarkTransformed(c)]);
    if host.Some? && GetOperations(c.model).Success? {
      var opMap := GetOperations(c.model).value;
      DeployOnHostKeepsClosed(marked, host.value, normalize(c.name), InOrder(opMap, order), fa, normalize);
    }
  }

  /** The index of the server recorded for `host`. */
  function ServerIndex(v: HeatVisitor, host: NodeId): nat
    requires host in v.computeResources
  {
    v.computeResources[host]
  }

  /** Dispatches a node to its handler: a compute to the compute visit, and every
      one of the eight software variants to the shared software handler. A
      compute visit never fails, and a successful visit marks the node
      transformed, leaves the other nodes alone and keeps the visitor's
      invariants. */
  function Visit(v: HeatVisitor, id: NodeId, host: Option<NodeId>, order: seq<string>,
                 fa: FileAccess, normalize: string -> string): (r: Result<HeatVisitor, HeatError>)
    requires Valid(v)
    requires id in v.nodes
    requires IterationOrder(v.nodes[id].model, order)
    ensures v.nodes[id].kind.Compute? ==> r.Success?
    ensures r.Success? ==> Valid(r.value) && id in r.value.nodes && IsTransformed(r.value.nodes[id].model)
    ensures r.Success? ==> forall other :: other in v.nodes && other != id ==>
      other in r.value.nodes && r.value.nodes[other] == v.nodes[other]
    ensures r.Success? && Closed(v.template) ==> Closed(r.value.template)
    ensures r.Success? ==> |r.value.template.resources| >= |v.template.resources|
  {
    if v.nodes[id].kind.Compute? then Success(VisitCompute(v, id, normalize))
    else
      assert Closed(v.template) ==> (var r := HandleSoftwareDeployment(v, id, host, order, fa, normalize);
                                     r.Success? ==> Closed(r.value.template)) by {
        if Closed(v.template) {
          SoftwareVisitKeepsClosed(v, id, host, order, fa, normalize);
        }
      }
      HandleSoftwareDeployment(v, id, host, order, fa, normalize)
  }

  /** Writes the template to the file named like the template; an I/O failure is
      rethrown as TransformationException. */
  function PopulateHeatTemplate(v: HeatVisitor, fa: FileAccess, render: Template -> string): (r: Result<FileAccess, TransformationException>)
    ensures r.Success? <==> v.template.name !in fa.failingAppends
    ensures r.Success? ==> r.value.appended == fa.appended + [(v.template.name, render(v.template))]
    ensures r.Failure? ==> r.error == TransformationException(IoFailure(v.template.name))
    ensures r.Success? ==> r.value.files == fa.files && r.value.failingAppends == fa.failingAppends
  {
    match Append(fa, v.template.name, render(v.template))
    case Failure(e) => Failure(TransformationException(e))
    case Success(fa') => Success(fa')
  }

  /** A fresh visitor: an empty template named after the deployment model. */
  function NewHeatVisitor(modelName: string, nodes: map<NodeId, Component>): (r: HeatVisitor)
    ensures Valid(r) && Closed(r.template)
    ensures r.template.name == modelName && r.nodes == nodes
    ensures r.template.resources == [] && r.template.parameters == map[] && r.computeResources == map[]
  {
    HeatVisitor(Template(modelName, [], map[]), map[], nodes)
  }

  // ---------------------------------------------------------------------------
  // Properties across visits

  /** Every deployment generated on a host is bound to the host's server. */
  lemma DeployOnHostBindsServer(v: HeatVisitor, host: NodeId, componentName: string, ops: seq<Operation>,
                                fa: FileAccess, normalize: string -> string)
    requires Valid(v)
    requires host in v.computeResources
    requires DeployOnHost(v, host, componentName, ops, fa, normalize).Success?
    ensures var rs := DeployOnHost(v, host, componentName, ops, fa, normalize).value.template.resources;
            forall x :: (x in rs[|v.template.resources|..] && x.resourceType == SoftwareDeploymentType) ==>
                          |x.dependsOn| > 0 && x.dependsOn[0] == v.template.resources[ServerIndex(v, host)].name
  {
    if CountWithArtifacts(ops) > 0 {
      var server := v.template.resources[ServerIndex(v, host)];
      DeployOnHostLayout(v, host, componentName, ops, fa, normalize);
      DeployOperationsContents(componentName, server.name, ops, fa, normalize);
      var rs := DeployOnHost(v, host, componentName, ops, fa, normalize).value.template.resources;
      forall x | x in rs[|v.template.resources|..] && x.resourceType == SoftwareDeploymentType
        ensures |x.dependsOn| > 0 && x.dependsOn[0] == server.name
      {
        assert GeneratedFor(x, componentName, server.name, ops, fa, normalize);
      }
    }
  }

  /** Every deployment a software visit adds is bound to the host's server: the
      server is the first resource it depends on. */
  lemma DeploymentsDependOnServer(v: HeatVisitor, id: NodeId, host: NodeId, order: seq<string>,
                                  fa: FileAccess, normalize: string -> string)
    requires Valid(v)
    requires id in v.nodes
    requires IterationOrder(v.nodes[id].model, order)
    requires host in v.computeResources
    requires HandleSoftwareDeployment(v, id, Some(host), order, fa, normalize).Success?
    ensures var rs := HandleSoftwareDeployment(v, id, Some(host), order, fa, normalize).value.template.resources;
            forall x :: (x in rs[|v.template.resources|..] && x.resourceType == SoftwareDeploymentType) ==>
                          |x.dependsOn| > 0 && x.dependsOn[0] == v.template.resources[ServerIndex(v, host)].name
  {
    var c := v.nodes[id];
    var marked := v.(nodes := v.nodes[id := MarkTransformed(c)]);
    var opMap := GetOperations(c.model).value;
    var ops := InOrder(opMap, order);
    assert HandleSoftwareDeployment(v, id, Some(host), order, fa, normalize) ==
      DeployOnHost(marked, host, normalize(c.name), ops, fa, normalize);
    DeployOnHostBindsServer(marked, host, normalize(c.name), ops, fa, normalize);
  }

  /** A compute hosting a software component: once the compute is visited,
      visiting the component succeeds when its type resolves and its artifacts
      are readable, and every deployment it adds is bound to the compute's
      server, whose name is the compute's normalized name. */
  lemma VisitedHostServesDeployments(v: HeatVisitor, compute: NodeId, software: NodeId, order: seq<string>,
                                     fa: FileAccess, normalize: string -> string)
    requires Valid(v)
    requires compute in v.nodes && v.nodes[compute].kind.Compute?
    requires software in v.nodes && software != compute
    requires IterationOrder(v.nodes[software].model, order)
    requires GetOperations(v.nodes[software].model).Success?
    requires AllReadable(GetOperations(v.nodes[software].model).value, fa)
    ensures var v1 := VisitCompute(v, compute, normalize);
            var r := HandleSoftwareDeployment(v1, software, Some(compute), order, fa, normalize);
            && r.Success?
            && forall x :: (x in r.value.template.resources[|v1.template.resources|..] &&
                            x.resourceType == SoftwareDeploymentType) ==>
                             |x.dependsOn| > 0 && x.dependsOn[0] == normalize(v.nodes[compute].name)
  {
    var v1 := VisitCompute(v, compute, normalize);
    assert v1.nodes[software] == v.nodes[software];
    SoftwareVisitFailures(v1, software, compute, order, fa, normalize);
    VisitComputeOutput(v, compute, normalize);
    DeploymentsDependOnServer(v1, software, compute, order, fa, normalize);
  }

  /** Visiting a component whose host was not visited yet fails with the null
      dereference as soon as one of its operations carries artifacts. */
  lemma UnvisitedHostFails(v: HeatVisitor, id: NodeId, host: NodeId, order: seq<string>,
                           fa: FileAccess, normalize: string -> string)
    requires Valid(v)
    requires id in v.nodes
    requires IterationOrder(v.nodes[id].model, order)
    requires host !in v.computeResources
    requires GetOperations(v.nodes[id].model).Success? && HasDeployable(GetOperations(v.nodes[id].model).value)
    ensures HandleSoftwareDeployment(v, id, Some(host), order, fa, normalize) == Failure(NullPointer)
  {
    SoftwareVisitFailures(v, id, host, order, fa, normalize);
  }

  // ---------------------------------------------------------------------------
  // The server lookup as the source writes it

  /** The source keys the server map by the Compute object itself, and a
      component's equality and hash include its `transformed` flag. The server is
      recorded before the flag is set, so the key is the unmarked compute. */
  function RecordServerByValue(byValue: map<Component, nat>, compute: Component, serverIndex: nat): map<Component, nat>
  {
    byValue[compute := serverIndex]
  }

  /** The lookup of a host's server in the value-keyed map. */
  function LookupServerByValue(byValue: map<Component, nat>, host: Component): Option<nat>
  {
    if host in byValue then Some(byValue[host]) else None
  }

  /** After visiting an unmarked compute, the value-keyed lookup with the same
      compute, now marked transformed, finds nothing: the later software visit
      dereferences a missing server. */
  lemma ValueKeyedLookupMissesVisitedCompute(compute: Component, serverIndex: nat)
    requires compute.kind.Compute? && !IsTransformed(compute.model)
    ensures var byValue := RecordServerByValue(map[], compute, serverIndex);
            LookupServerByValue(byValue, MarkTransformed(compute)) == None
  {
    assert MarkTransformed(compute) != compute;
  }

  /** A compute visit whose server record is lost keeps the visitor valid: the
      servers recorded before still sit at their indices. */
  lemma VisitWithoutRecordKeepsValid(v: HeatVisitor, compute: NodeId, normalize: string -> string)
    requires Valid(v)
    requires compute in v.nodes && v.nodes[compute].kind.Compute?
    ensures Valid(VisitCompute(v, compute, normalize).(computeResources := v.computeResources))
  {
    var lost := VisitCompute(v, compute, normalize).(computeResources := v.computeResources);
    forall c | c in lost.computeResources
      ensures lost.computeResources[c] < |lost.template.resources|
      ensures lost.template.resources[lost.computeResources[c]].resourceType == ServerType
    {
      assert lost.template.resources[..|v.template.resources|] == v.template.resources;
      assert lost.template.resources[lost.computeResources[c]] == v.template.resources[v.computeResources[c]];
    }
  }

  /** The consequence for a whole visit as the source writes it: after a fresh
      compute is visited, its server is recorded under the unmarked compute, the
      lookup with the marked compute finds nothing, and so the visitor holds no
      server for that host; a later software component hosted on it then
      dereferences the missing server as soon as one of its operations carries
      artifacts. */
  lemma ValueKeyedVisitLosesServer(v: HeatVisitor, compute: NodeId, id: NodeId, order: seq<string>,
                                   fa: FileAccess, normalize: string -> string)
    requires Valid(v)
    requires compute in v.nodes && v.nodes[compute].kind.Compute? && !IsTransformed(v.nodes[compute].model)
    requires compute !in v.computeResources
    requires id in v.nodes && id != compute
    requires IterationOrder(v.nodes[id].model, order)
    requires GetOperations(v.nodes[id].model).Success? && HasDeployable(GetOperations(v.nodes[id].model).value)
    ensures var visited := VisitCompute(v, compute, normalize);
            var byValue := RecordServerByValue(map[], v.nodes[compute], |v.template.resources| + 1);
            && LookupServerByValue(byValue, visited.nodes[compute]) == None
            && HandleSoftwareDeployment(visited.(computeResources := v.computeResources), id, Some(compute),
                                        order, fa, normalize) == Failure(NullPointer)
  {
    var visited := VisitCompute(v, compute, normalize);
    ValueKeyedLookupMissesVisitedCompute(v.nodes[compute], |v.template.resources| + 1);
    var lost := visited.(computeResources := v.computeResources);
    VisitWithoutRecordKeepsValid(v, compute, normalize);
    assert lost.nodes[id] == v.nodes[id];
    UnvisitedHostFails(lost, id, compute, order, fa, normalize);
  }
}
