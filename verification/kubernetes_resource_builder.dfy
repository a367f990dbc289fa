/** The Kubernetes resource builder of one component stack: it merges the
    environment of the stacks the stack connects to into its own, selects the
    resources to generate and writes each of them to its own file. */
module Kubernetes {
  import opened Wrappers
  import opened PluginSupport

  /** A container stack: its name, its environment variables and its exposed ports. */
  datatype ComponentStack = ComponentStack(name: string, envVars: map<string, string>, ports: seq<int>)

  // ---------------------------------------------------------------------------
  // Environment propagation

  /** The position of the last target that defines `k`, or -1 when none does. */
  function LastProviding(targets: seq<ComponentStack>, k: string): (r: int)
    ensures -1 <= r < |targets|
    ensures r >= 0 ==> k in targets[r].envVars && forall j :: r < j < |targets| ==> k !in targets[j].envVars
    ensures r < 0 <==> forall j :: 0 <= j < |targets| ==> k !in targets[j].envVars
  {
    if targets == [] then -1
    else if k in targets[|targets| - 1].envVars then |targets| - 1
    else LastProviding(targets[..|targets| - 1], k)
  }

  /** Copies every environment variable of every target into the stack, target
      after target, so a later target replaces what an earlier one or the stack
      itself defined. The targets are the stacks this stack connects to directly,
      in the order the target set is iterated. */
  function ResolveEnvVars(stack: ComponentStack, targets: seq<ComponentStack>): (r: ComponentStack)
    ensures r.name == stack.name && r.ports == stack.ports
    ensures forall k :: k in r.envVars <==> k in stack.envVars || LastProviding(targets, k) >= 0
    ensures forall k :: LastProviding(targets, k) >= 0 ==>
      k in r.envVars && r.envVars[k] == targets[LastProviding(targets, k)].envVars[k]
    ensures forall k :: k in stack.envVars && LastProviding(targets, k) < 0 ==>
      k in r.envVars && r.envVars[k] == stack.envVars[k]
    decreases |targets|
  {
    if targets == [] then stack
    else
      var init := targets[..|targets| - 1];
      var last := targets[|targets| - 1];
      var before := ResolveEnvVars(stack, init);
      assert forall j :: 0 <= j < |init| ==> init[j] == targets[j];
      assert forall k :: k !in last.envVars ==> LastProviding(targets, k) == LastProviding(init, k);
      before.(envVars := before.envVars + last.envVars)
  }

  /** After resolution every variable of every target is defined on the stack. */
  lemma TargetVariablesPresent(stack: ComponentStack, targets: seq<ComponentStack>)
    ensures forall i, k :: 0 <= i < |targets| && k in targets[i].envVars ==>
      k in ResolveEnvVars(stack, targets).envVars
  {
  }

  /** Resolving twice against the same targets changes nothing more. */
  lemma ResolveEnvVarsIdempotent(stack: ComponentStack, targets: seq<ComponentStack>)
    ensures ResolveEnvVars(ResolveEnvVars(stack, targets), targets) == ResolveEnvVars(stack, targets)
  {
    var once := ResolveEnvVars(stack, targets);
    var twice := ResolveEnvVars(once, targets);
    assert twice.envVars.Keys == once.envVars.Keys;
    assert forall k :: k in twice.envVars ==> twice.envVars[k] == once.envVars[k];
  }

  // ---------------------------------------------------------------------------
  // Resource selection and output

  datatype ResourceKind = DeploymentKind | ServiceKind

  /** A Kubernetes resource generated for a stack. */
  datatype KubernetesResource = KubernetesResource(kind: ResourceKind, stack: ComponentStack)

  /** The resources generated for a stack: its deployment, then a service when it
      exposes a port. */
  function SelectResources(stack: ComponentStack): (rs: seq<KubernetesResource>)
    ensures 1 <= |rs| <= 2
    ensures rs[0] == KubernetesResource(DeploymentKind, stack)
    ensures |rs| == 2 <==> |stack.ports| > 0
    ensures |rs| == 2 ==> rs[1] == KubernetesResource(ServiceKind, stack)
  {
    [KubernetesResource(DeploymentKind, stack)] +
    (if |stack.ports| > 0 then [KubernetesResource(ServiceKind, stack)] else [])
  }

  /** The file a resource is written to: a YAML file named like the resource in
      the stack's directory. */
  function OutputPath(stackName: string, resourceName: string): (p: string)
    ensures |p| == |stackName| + |resourceName| + 6
    ensures p[..|stackName|] == stackName && p[|stackName|] == '/'
    ensures p[|p| - 5..] == ".yaml"
    ensures p[|stackName| + 1..|p| - 5] == resourceName
  {
    stackName + "/" + resourceName + ".yaml"
  }

  /** The appends that write the resources, in order: path and rendered content. */
  function Writes(resources: seq<KubernetesResource>, stackName: string,
                  nameOf: KubernetesResource -> string,
                  render: KubernetesResource -> string): (ws: seq<(string, string)>)
    ensures |ws| == |resources|
    ensures forall i :: 0 <= i < |resources| ==>
      ws[i] == (OutputPath(stackName, nameOf(resources[i])), render(resources[i]))
  {
    seq(|resources|, i requires 0 <= i < |resources| =>
      (OutputPath(stackName, nameOf(resources[i])), render(resources[i])))
  }

  /** The position of the first append that fails, or -1 when none does. */
  function FirstFailing(ws: seq<(string, string)>, failing: set<string>): (r: int)
    ensures -1 <= r < |ws|
    ensures r >= 0 ==> ws[r].0 in failing && forall j :: 0 <= j < r ==> ws[j].0 !in failing
    ensures r < 0 <==> forall j :: 0 <= j < |ws| ==> ws[j].0 !in failing
  {
    if ws == [] then -1
    else if ws[0].0 in failing then 0
    else
      var r := FirstFailing(ws[1..], failing);
      assert forall j :: 1 <= j < |ws| ==> ws[j] == ws[1..][j - 1];
      if r < 0 then -1 else r + 1
  }

  /** Populates the stack's resources and writes them. The environment is
      resolved first, so every resource sees the resolved stack; a deployment is
      always generated and a service only when the stack exposes a port. The
      resources are written in order to their output paths; the first append
      that fails stops the writing and is rethrown as TransformationException,
      and the appends before it stay in the log. */
  method PopulateResources(stack: ComponentStack, targets: seq<ComponentStack>,
                           nameOf: KubernetesResource -> string,
                           render: KubernetesResource -> string,
                           fa: FileAccess)
    returns (resolved: ComponentStack, resources: seq<KubernetesResource>, files: FileAccess,
             error: Option<TransformationException>)
    ensures resolved == ResolveEnvVars(stack, targets)
    ensures 1 <= |resources| <= 2 && (|resources| == 2 <==> |stack.ports| > 0)
    ensures resources[0].kind == DeploymentKind
    ensures |resources| == 2 ==> resources[1].kind == ServiceKind
    ensures forall i :: 0 <= i < |resources| ==> resources[i].stack == resolved
    ensures files.files == fa.files && files.failingAppends == fa.failingAppends
    ensures var ws := Writes(resources, stack.name, nameOf, render);
            var f := FirstFailing(ws, fa.failingAppends);
            && (error.None? <==> f < 0)
            && (f < 0 ==> files.appended == fa.appended + ws)
            && (f >= 0 ==> error == Some(TransformationException(IoFailure(ws[f].0))) &&
                           files.appended == fa.appended + ws[..f])
  {
    resolved := ResolveEnvVars(stack, targets);
    resources := SelectResources(resolved);
    var ws := Writes(resources, resolved.name, nameOf, render);
    files := fa;
    error := None;
    var i := 0;
    while i < |ws|
      invariant 0 <= i <= |ws|
      invariant files.files == fa.files && files.failingAppends == fa.failingAppends
      invariant files.appended == fa.appended + ws[..i]
      invariant forall j :: 0 <= j < i ==> ws[j].0 !in fa.failingAppends
    {
      match Append(files, ws[i].0, ws[i].1)
      case Failure(e) =>
        error := Some(TransformationException(e));
        assert FirstFailing(ws, fa.failingAppends) == i;
        return;
      case Success(next) =>
        files := next;
        assert ws[..i + 1] == ws[..i] + [ws[i]];
        i := i + 1;
    }
    assert ws[..i] == ws;
  }
}
