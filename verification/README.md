# EDMM transformation core in Dafny

This project models the core of the EDMM transformation framework: how a
deployment model resolves the effective properties and operations of its
components, and how three deployment technology plugins build their output from
the resolved topology.

- **ModelSupport** (`model_support.dfy`): a model entity's effective property
  map and operation map. The instance's own children are put into a map first,
  then the children of every type in its inheritance chain, in chain order. A
  later put overwrites an earlier one. The `transformed` flag and the `extends`
  lookup are modelled too.
- **Components** (`components.dfy`): the component variants a visitor
  distinguishes, plus the typed `port` and `root_password` accessors of a DBMS.
- **PluginSupport** (`plugin_support.dfy`): file access as data: readable files,
  paths whose append fails, and the log of appends. An I/O failure is rethrown as
  TransformationException.
- **Heat** (`heat_visitor.dfy`): the OpenStack Heat visitor.
  - Visiting a compute adds a port, a server, a floating IP and its association,
    and five template parameters.
  - Visiting any of the eight software variants adds a software deployment and a
    script config for every effective operation that carries artifacts. Each
    deployment is bound to the server of the hosting compute.
  - Writing the template out is modelled as well.
  - The visitor state is the template, the server recorded for each visited
    compute, and the topology's components with their flags.
- **Azure** (`azure_network_interface.dfy`): a network interface.
  - Its security group, public IP address and IP configuration are named from the
    interface's name.
  - Its fixed defaults are set.
  - Its required parameters and variables are a three-way merge.
- **Kubernetes** (`kubernetes_resource_builder.dfy`): a stack's environment
  absorbs that of the stacks it connects to. A deployment, and a service when the
  stack exposes a port, are then written to `<stack>/<resource>.yaml`.

Collaborators whose code is not part of this model become inputs:
- the type lookup and inheritance chain of an instance;
- the hosting compute of a component;
- the connected target stacks;
- the iteration order of hash maps and sets;
- name normalization;
- YAML rendering;
- the requirements that the Azure sub-resources report.

The model follows the code in three places where a reader might expect otherwise:
- Resolution precedence: the type chain overwrites a same-named local
  declaration, and a later chain element overwrites an earlier one.
- Typed attribute lookup: it does an unchecked cast. A value of another type is
  returned as stored, not rejected.
- Kubernetes `build`: it runs before the `try` block, so its exceptions are not
  wrapped. Any exception inside the `try` is wrapped as TransformationException,
  including one from naming or rendering a resource (`getName`, `toYaml`), not
  only a failing write.

## Model

| member | source | states |
|---|---|---|
| ModelSupport.LastIndexOf | src/main/java/io/github/ust/edmm/model/support/ModelEntity.java:94-101 | the position of the last child with a given name, -1 exactly when no child has it; the reference for "the last put wins" |
| ModelSupport.PutAll | src/main/java/io/github/ust/edmm/model/support/ModelEntity.java:94-101 | putting children into a map adds exactly their names, leaves other entries alone, and maps each name to the last child carrying it |
| ModelSupport.PutAllOrderIrrelevant | src/main/java/io/github/ust/edmm/model/support/ModelEntity.java:95-100 | when the children of one entry have distinct names, the order the set is iterated in does not change the result |
| ModelSupport.LastSourceOf | src/main/java/io/github/ust/edmm/model/support/ModelEntity.java:47-50 | the last source (local children, then each chain element) that declares a name, -1 exactly when none does |
| ModelSupport.Flatten | src/main/java/io/github/ust/edmm/model/support/ModelEntity.java:44-50 | applying the sources in order defines exactly the names some source declares, each mapped to the declaration of the last source declaring it |
| ModelSupport.Resolve | src/main/java/io/github/ust/edmm/model/support/ModelEntity.java:44-50 | local children first, then the chain: keys are local names plus chain names, chain declarations win, local-only names keep their last local declaration |
| ModelSupport.ResolveShift | src/main/java/io/github/ust/edmm/model/support/ModelEntity.java:44-50 | putting the local children first shifts every chain source by one and leaves local children the winner only of names the chain never declares |
| ModelSupport.NewModelEntity | src/main/java/io/github/ust/edmm/model/support/ModelEntity.java:26-30 | a new entity is not transformed |
| ModelSupport.SetTransformed | src/main/java/io/github/ust/edmm/model/support/ModelEntity.java:86-92 | the flag is a plain get/set and setting it changes nothing else |
| ModelSupport.GetExtends | src/main/java/io/github/ust/edmm/model/support/ModelEntity.java:32-34 | the instance's own `extends` value, present exactly when the entity has one |
| ModelSupport.GetProperties | src/main/java/io/github/ust/edmm/model/support/ModelEntity.java:36-52 | fails exactly when there is no resolvable type; keys are the names declared locally or by the chain; each entry is keyed by its own name; chain declarations override local ones and later chain elements override earlier ones |
| ModelSupport.GetOperations | src/main/java/io/github/ust/edmm/model/support/ModelEntity.java:64-80 | the same failure, key-set, self-keying and override facts for operations |
| ModelSupport.GetProperty | src/main/java/io/github/ust/edmm/model/support/ModelEntity.java:54-56 | fails only when the effective map does; otherwise present exactly when the name is declared, and then the effective entry |
| ModelSupport.GetPropertyValue | src/main/java/io/github/ust/edmm/model/support/ModelEntity.java:58-62 | the lookup by attribute name mapped to the property's value; empty when the name is declared nowhere |
| ModelSupport.GetOperation | src/main/java/io/github/ust/edmm/model/support/ModelEntity.java:82-84 | present exactly when the operation name is declared, and then the effective operation |
| ModelSupport.ResolutionIgnoresTransformed | src/main/java/io/github/ust/edmm/model/support/ModelEntity.java:36-92 | resolving properties and operations does not depend on the transformed flag |
| ModelSupport.ParentDeclarationWins | src/main/java/io/github/ust/edmm/model/support/ModelEntity.java:44-50 | with a property declared locally, by the type and by the type's parent, the parent's declaration is the effective one |
| Components.MarkTransformed | src/main/java/io/github/ust/edmm/model/support/ModelEntity.java:90-92 | marking a component sets its flag and keeps its name, variant, entity and type chain |
| Components.GetPort | edmm-core/src/main/java/io/github/edmm/model/component/Dbms.java:21-23 | the typed lookup of the effective property "port": error without a type, empty when undeclared, else that property's value |
| Components.GetRootPassword | edmm-core/src/main/java/io/github/edmm/model/component/Dbms.java:25-27 | the typed lookup of the effective property "root_password", with the same three cases |
| Components.DbmsAccessorsReadOnlyTheEntity | edmm-core/src/main/java/io/github/edmm/model/component/Dbms.java:12-19 | the accessors depend only on the wrapped entity and its type chain, not on variant, name or flag |
| Heat.ComputeResourcesClosed | edmm-core/src/main/java/io/github/edmm/plugins/heat/HeatVisitor.java:150-196 | adding a compute's four resources and five parameters to a template whose references resolve keeps every reference resolvable |
| Heat.ComputeResourcesSelfContained | edmm-core/src/main/java/io/github/edmm/plugins/heat/HeatVisitor.java:150-196 | each of the four compute resources refers only to the four of them and to the five compute parameters, whatever template they join |
| Heat.VisitCompute | edmm-core/src/main/java/io/github/edmm/plugins/heat/HeatVisitor.java:144-200 | adds four resources after the existing ones and the five parameters, records the server's position, marks the compute, and keeps the invariants |
| Heat.VisitComputeOutput | edmm-core/src/main/java/io/github/edmm/plugins/heat/HeatVisitor.java:150-196 | the names `n_port`, `n`, `n_floating_ip`, `n_floating_ip_association`, their four types, the depends-on edges port←server, port←floating IP, {floating IP, port}←association, and the parameter defaults |
| Heat.DeploymentResource | edmm-core/src/main/java/io/github/edmm/plugins/heat/HeatVisitor.java:113-125 | a deployment named `c_op` of the software deployment type depending on the server and on its config |
| Heat.ConfigResource | edmm-core/src/main/java/io/github/edmm/plugins/heat/HeatVisitor.java:118-133 | a config named `c_op_config` of the software config type with group `script` |
| Heat.DeployOperations | edmm-core/src/main/java/io/github/edmm/plugins/heat/HeatVisitor.java:106-138 | succeeds exactly when every operation with artifacts has a readable first artifact, then yields two resources per such operation; its only error is the wrapped I/O failure |
| Heat.DeployOperationsFailure | edmm-core/src/main/java/io/github/edmm/plugins/heat/HeatVisitor.java:130-136 | a failure names the first operation, in iteration order, whose artifact cannot be read |
| Heat.DeployOperationsContents | edmm-core/src/main/java/io/github/edmm/plugins/heat/HeatVisitor.java:106-138 | a successful generation holds exactly the deployments and configs of the operations with artifacts, and nothing for operations without |
| Heat.DeployOperationsSelfContained | edmm-core/src/main/java/io/github/edmm/plugins/heat/HeatVisitor.java:123-125 | generated resources refer only to each other and to the server |
| Heat.InOrderFacts | edmm-core/src/main/java/io/github/edmm/plugins/heat/HeatVisitor.java:106-107 | through any iteration order, whether some operation carries artifacts and whether all artifacts are readable are properties of the map alone |
| Heat.CountAlongOrder | edmm-core/src/main/java/io/github/edmm/plugins/heat/HeatVisitor.java:106-107 | counting the operations with artifacts along an order without repetitions counts the distinct names passed that carry artifacts |
| Heat.DeployableCount | edmm-core/src/main/java/io/github/edmm/plugins/heat/HeatVisitor.java:106-107 | through any iteration order, the number of operations with artifacts equals the number of such entries in the map |
| Heat.SoftwareConfigServer | edmm-core/src/main/java/io/github/edmm/plugins/heat/HeatVisitor.java:111 | the server gains `user_data_format` = `SOFTWARE_CONFIG` and keeps its name, type, edges and other properties |
| Heat.DeployOnHost | edmm-core/src/main/java/io/github/edmm/plugins/heat/HeatVisitor.java:104-139 | nothing changes when no operation has artifacts; a missing server fails as a null dereference exactly when some operation has artifacts; an unreadable artifact fails as TransformationException |
| Heat.DeployOnHostLayout | edmm-core/src/main/java/io/github/edmm/plugins/heat/HeatVisitor.java:111-137 | on success with some operation carrying artifacts: the host's server is switched to software config, every other existing resource is untouched, and the appended resources are exactly those generated for the operations with artifacts, two per operation |
| Heat.DeployOnHostKeepsClosed | edmm-core/src/main/java/io/github/edmm/plugins/heat/HeatVisitor.java:123-137 | generation keeps every depends-on edge and resource reference of the template resolvable |
| Heat.HandleSoftwareDeployment | edmm-core/src/main/java/io/github/edmm/plugins/heat/HeatVisitor.java:96-142 | a successful visit marks the component, keeps recorded servers, parameters and invariants, and never removes resources; without a host nothing is generated |
| Heat.SoftwareVisitFailures | edmm-core/src/main/java/io/github/edmm/plugins/heat/HeatVisitor.java:101-136 | with a host: IllegalState exactly when the type cannot be resolved, null dereference exactly when an operation has artifacts and the host is unvisited, TransformationException exactly when the host is visited and some artifact is unreadable |
| Heat.SoftwareVisitOutput | edmm-core/src/main/java/io/github/edmm/plugins/heat/HeatVisitor.java:101-139 | on success, over the effective operation map: the template is unchanged without deployable operations; otherwise the host's server is switched to software config, two resources are added per operation with artifacts, and they are exactly the deployment and config of each such operation |
| Heat.SoftwareVisitKeepsClosed | edmm-core/src/main/java/io/github/edmm/plugins/heat/HeatVisitor.java:96-142 | a successful software visit keeps the template's references resolvable |
| Heat.Visit | edmm-core/src/main/java/io/github/edmm/plugins/heat/HeatVisitor.java:202-240 | a compute visit never fails; every visit that succeeds marks its node, leaves other nodes unchanged, keeps the invariants and closedness, and never removes resources |
| Heat.PopulateHeatTemplate | edmm-core/src/main/java/io/github/edmm/plugins/heat/HeatVisitor.java:86-94 | the rendered template is appended under the template's name, and the readable files and failing paths stay as they were; a failing append is rethrown as TransformationException |
| Heat.NewHeatVisitor | edmm-core/src/main/java/io/github/edmm/plugins/heat/HeatVisitor.java:79-84 | a template named after the deployment model with no resources and no parameters, no recorded server, and the given nodes |
| Heat.DeployOnHostBindsServer | edmm-core/src/main/java/io/github/edmm/plugins/heat/HeatVisitor.java:123-125 | every deployment generated on a host depends first on the host's server |
| Heat.DeploymentsDependOnServer | edmm-core/src/main/java/io/github/edmm/plugins/heat/HeatVisitor.java:104-125 | every deployment a software visit adds depends first on the recorded server of its host |
| Heat.VisitedHostServesDeployments | edmm-core/src/main/java/io/github/edmm/plugins/heat/HeatVisitor.java:96-200 | after its host compute is visited, a component with a resolvable type and readable artifacts is visited successfully, and its deployments depend on the server named like the compute |
| Heat.UnvisitedHostFails | edmm-core/src/main/java/io/github/edmm/plugins/heat/HeatVisitor.java:104-111 | visiting a component with deployable operations before its host fails with the null dereference |
| Heat.ValueKeyedLookupMissesVisitedCompute | edmm-core/src/main/java/io/github/edmm/plugins/heat/HeatVisitor.java:198-199 | a server map keyed by the compute's value, recorded before the flag is set, misses the compute once it is marked transformed |
| Heat.VisitWithoutRecordKeepsValid | edmm-core/src/main/java/io/github/edmm/plugins/heat/HeatVisitor.java:196-199 | a compute visit whose server record is lost still leaves every earlier server at its recorded index |
| Heat.ValueKeyedVisitLosesServer | edmm-core/src/main/java/io/github/edmm/plugins/heat/HeatVisitor.java:104-111 | after a fresh compute is visited, the value-keyed lookup with the marked compute finds nothing, and a hosted component with deployable operations then fails with the null dereference |
| Azure.NewNetworkInterface | edmm-core/src/main/java/io/github/edmm/plugins/azure/model/resource/network/networkinterfaces/NetworkInterface.java:21-45 | API version `2019-04-01`, names `n_securityGroup`, `n_publicIpAddress`, `n_ipConfiguration`, `Dynamic` allocation, subnet id `[variables('subnet_id')]` |
| Azure.AccessorsReturnDefaults | edmm-core/src/main/java/io/github/edmm/plugins/azure/model/resource/network/networkinterfaces/NetworkInterface.java:47-55 | the two accessors return exactly the sub-resources the defaults created |
| Azure.PutAll | edmm-core/src/main/java/io/github/edmm/plugins/azure/model/resource/network/networkinterfaces/NetworkInterface.java:59-61 | a put-all adds the other map's keys and its values win on a collision |
| Azure.GetRequiredParameters | edmm-core/src/main/java/io/github/edmm/plugins/azure/model/resource/network/networkinterfaces/NetworkInterface.java:57-64 | keys are the union of base, security group and public IP parameters; public IP beats security group, which beats base |
| Azure.GetRequiredVariables | edmm-core/src/main/java/io/github/edmm/plugins/azure/model/resource/network/networkinterfaces/NetworkInterface.java:66-73 | the same union and override order for variables |
| Azure.RequiredParametersComeFromSources | edmm-core/src/main/java/io/github/edmm/plugins/azure/model/resource/network/networkinterfaces/NetworkInterface.java:57-64 | every merged parameter is taken, with its value, from one of the three sources |
| Azure.DerivedNameInjective | edmm-core/src/main/java/io/github/edmm/plugins/azure/model/resource/network/networkinterfaces/NetworkInterface.java:25-33 | different interface names derive different names for each sub-resource |
| Azure.DerivedNamesDistinct | edmm-core/src/main/java/io/github/edmm/plugins/azure/model/resource/network/networkinterfaces/NetworkInterface.java:25-33 | one interface's three derived names differ from each other and from the interface name |
| Kubernetes.LastProviding | edmm-core/src/main/java/io/github/edmm/plugins/kubernetes/support/KubernetesResourceBuilder.java:55-59 | the last target that defines a variable, -1 exactly when none does |
| Kubernetes.ResolveEnvVars | edmm-core/src/main/java/io/github/edmm/plugins/kubernetes/support/KubernetesResourceBuilder.java:53-60 | name and ports are kept; the variables are the stack's plus every target's, the last target defining a variable wins, and otherwise the stack's value is kept |
| Kubernetes.TargetVariablesPresent | edmm-core/src/main/java/io/github/edmm/plugins/kubernetes/support/KubernetesResourceBuilder.java:55-59 | after resolution every variable of every target is defined on the stack |
| Kubernetes.ResolveEnvVarsIdempotent | edmm-core/src/main/java/io/github/edmm/plugins/kubernetes/support/KubernetesResourceBuilder.java:53-60 | resolving again against the same targets changes nothing |
| Kubernetes.SelectResources | edmm-core/src/main/java/io/github/edmm/plugins/kubernetes/support/KubernetesResourceBuilder.java:37-40 | one deployment first, and a service exactly when the stack has a port |
| Kubernetes.OutputPath | edmm-core/src/main/java/io/github/edmm/plugins/kubernetes/support/KubernetesResourceBuilder.java:45 | the path is the stack name, a slash, the resource name and `.yaml`, each segment at its position |
| Kubernetes.FirstFailing | edmm-core/src/main/java/io/github/edmm/plugins/kubernetes/support/KubernetesResourceBuilder.java:42-50 | the first append that fails, -1 exactly when none does |
| Kubernetes.PopulateResources | edmm-core/src/main/java/io/github/edmm/plugins/kubernetes/support/KubernetesResourceBuilder.java:35-51 | resolution precedes construction, so every resource sees the resolved stack; one or two resources, deployment first, service exactly with ports; writes are appended in order until the first failing one, which is rethrown as TransformationException |

## Left out

- File I/O is data, not effects: reading an artifact and appending a file use
  `FileAccess`. YAML rendering (`toYaml`) is a parameter.
- The graph helpers are inputs, because their code is not part of this model:
  - type lookup and inheritance-chain resolution are given as `typeChain`;
  - the hosting compute is given as `host`;
  - the `ConnectsTo` target stacks are given as `targets`.

  Which relations count as single-hop `ConnectsTo` is therefore not modelled.
- Hash map and set iteration orders are inputs, and no particular order is
  claimed. This covers children of a mapping entry, the operation map, and the
  target set.
- `getNormalizedName` is the `normalize` parameter, because its code is not
  part of this model.
- The Property, Operation, Artifact and Parameter classes hold their data
  directly. Their parsing constructors are not part of this model. In particular
  the owner argument that resolution passes when it builds each property and
  operation (the instance's own entity, at
  src/main/java/io/github/ust/edmm/model/support/ModelEntity.java:98 and :107)
  is dropped. If `Property.getValue` reads that owner, the value of a property
  declared in the type chain may differ from the declared one that
  ModelSupport.GetPropertyValue and Components.GetPort return.
- `Template.addResource` is modelled as an append, and `addParameter` and
  `addPropertyAssignment` as a put by name. Their code is not part of this model.
- Heat.HandleSoftwareDeployment: describes the identity-keyed server lookup
  (a map from node identity to server index), not the source's HashMap keyed by
  the component's value. See the finding below for the as-written lookup.
- Heat.SoftwareVisitFailures: the null dereference is stated for a host with no
  identity-keyed record. With the source's value-keyed map it also happens for a
  visited host, which Heat.ValueKeyedVisitLosesServer shows.
- Heat.UnvisitedHostFails: stated for the identity-keyed lookup; with the
  source's value-keyed map a visited host fails the same way.
- Heat.HandleSoftwareDeployment: on an exception, the source leaves behind the
  resources already added and the changed server, and the component stays
  unmarked. The model returns only the error, because the exception aborts the
  transformation.
- `Resource.addDependsOn` is modelled as an append to the depends-on list. Its
  code is not part of this model.
- `ComponentStack.addEnvVar` is modelled as a map put, so a later target
  overwrites. Its code is not part of this model; if it were put-if-absent, the
  first target would win instead.
- Kubernetes.PopulateResources: the model covers one call per builder. The
  builder's `resources` field
  (edmm-core/src/main/java/io/github/edmm/plugins/kubernetes/support/KubernetesResourceBuilder.java:23)
  is never cleared, so a second call on the same builder would add a second
  deployment (and service) and write all of them again; the model starts every
  call with an empty list. The code that calls the builder is not part of this
  model.
- The `(MappingEntity) child` casts at
  src/main/java/io/github/ust/edmm/model/support/ModelEntity.java:97 and :106
  throw ClassCastException when a child is not a mapping entry. The model's
  children are always mapping entries, so that case cannot be represented.
- The base Azure resource's requirements (`super.getRequiredParameters`,
  `super.setDefaults`) are inputs. So are the requirements the security group
  and public IP classes report, as functions of their names.
- Kubernetes.PopulateResources: `KubernetesResource.build` is not modelled; it is
  treated as having no effect and never failing. Its code is not part of this
  model, and because it runs outside the `try` block its exceptions would
  not be wrapped. Naming and rendering a resource (`getName`, `toYaml`) are the
  total parameters `nameOf` and `render`, so a failure there, which the source
  wraps as TransformationException, is not modelled; only a failing append is.
- Resolution follows `io.github.ust.edmm.model.support.ModelEntity`
  (src/main/java/io/github/ust/edmm/model/support/ModelEntity.java:1). The Dbms
  accessors and the Heat visitor use the `io.github.edmm.model` classes
  (edmm-core/src/main/java/io/github/edmm/model/component/Dbms.java:1 and :6,
  edmm-core/src/main/java/io/github/edmm/plugins/heat/HeatVisitor.java:14-25),
  whose ModelEntity is not part of this model. Components.GetPort,
  Components.GetRootPassword and the Heat software visit assume that it
  resolves properties and operations the same way, with the type chain
  overriding local declarations, and carries the same Lombok equality.
- Logging is not modelled. Neither are Lombok `toString` and the Jackson
  annotations. Lombok equality appears only in the finding below.
- The test classes and AnsibleLifecycle are left out. They only drive the plugins.

## Findings

| source | as written | input that shows it | evidently intended | confidence | as-written member | corrected member |
|---|---|---|---|---|---|---|
| edmm-core/src/main/java/io/github/edmm/plugins/heat/HeatVisitor.java:198-199 | The server map is keyed by the Compute object, and the entity's equality and hash include the mutable `transformed` flag. The entry is stored at line 198 and the flag is set at line 199, so the stored key no longer matches the compute. | A compute `c` with `transformed` false is visited. Then a software component hosted on `c`, with one operation carrying an artifact, is visited. The lookup at line 104 misses and line 111 dereferences null. | A visited compute's server is found when its hosted components are visited. | low; not executed. It depends on the component classes' equality. The Lombok `@EqualsAndHashCode(callSuper = true)` shown is on `io.github.ust.edmm.model.support.ModelEntity`, while HeatVisitor uses the `io.github.edmm.model` classes, whose ModelEntity is assumed to carry the same annotation. Evidence against: edmm-core/src/test/java/io/github/edmm/plugins/HeatTests.java:41-44 runs the whole Heat lifecycle on `templates/scenario_iaas.yml`; if that scenario has a hosted component with an artifact-bearing operation and the test passes, the lookup does not miss. | Heat.ValueKeyedVisitLosesServer | Heat.VisitedHostServesDeployments |
