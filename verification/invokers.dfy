/** `jContainer.invoker.ContainerInvoker` with its ECS and local
    implementations: classify the resource link of a request, run one
    execution path, set the outputs, tear down, clean the local files. */
module Invokers {
  import opened Wrappers
  import opened Text
  import opened Constants
  import opened World
  import opened FunctionDefinitions
  import opened ImageManagers
  import opened LocalExecutors
  import opened AwsExecutors
  import Utils
  import TerraformContainers
  import TerraformManagers

  /** The concrete invoker: ECS, local Docker, or the GKE placeholder. */
  datatype InvokerKind = EcsInvoker | LocalInvoker | GkeInvoker

  /** The execution path `invokeFunction` selects for a resource link. */
  datatype Route = EcrImage | DockerhubImage | JarResource | Rejected

  /** The first-match classification: an ECR link on the ECS invoker, a
      Docker Hub link on the local invoker, then any link the JAR validator
      accepts, whatever the invoker. */
  function Classify(env: Env, kind: InvokerKind, link: string): (r: Route)
    ensures r == EcrImage <==> kind == EcsInvoker && Utils.IsAwsEcrRepoLink(link)
    ensures r == DockerhubImage <==> kind == LocalInvoker && Utils.IsDockerhubRepoLink(link)
    ensures r == JarResource <==>
      !(kind == EcsInvoker && Utils.IsAwsEcrRepoLink(link)) &&
      !(kind == LocalInvoker && Utils.IsDockerhubRepoLink(link)) &&
      env.isValidJarResourceInput(link)
    ensures r == Rejected <==>
      !(kind == EcsInvoker && Utils.IsAwsEcrRepoLink(link)) &&
      !(kind == LocalInvoker && Utils.IsDockerhubRepoLink(link)) &&
      !env.isValidJarResourceInput(link)
  {
    if kind == EcsInvoker && Utils.IsAwsEcrRepoLink(link) then EcrImage
    else if kind == LocalInvoker && Utils.IsDockerhubRepoLink(link) then DockerhubImage
    else if env.isValidJarResourceInput(link) then JarResource
    else Rejected
  }

  /** A tagged ECR link given to the local invoker is taken for a Docker Hub
      link, never rejected and never sent to the JAR path. */
  lemma TaggedEcrLinkRunsLocallyAsDockerhub(env: Env, link: string)
    requires Utils.IsAwsEcrRepoLink(link) && ':' in link
    ensures Classify(env, LocalInvoker, link) == DockerhubImage
  {
    Utils.EcrLinkIsDockerhubShaped(link);
  }

  /** The `error` text recorded for a rejected link. */
  function RejectionMessage(kind: InvokerKind): string {
    match kind
    case EcsInvoker => "Resource link for execution on ECS was provided in wrong format!"
    case LocalInvoker => "Resource link for local execution was provided in wrong format!"
    case GkeInvoker => "Link is invalid (maybe unimplemented provider?)"
  }

  /** The exception text: the JSON rendering of the recorded string, quotes
      included. */
  function RejectionError(kind: InvokerKind): Error {
    InvalidResourceLink("\"" + RejectionMessage(kind) + "\"")
  }

  /** Each invoker rejects with its own message. */
  lemma RejectionNamesInvoker(k: InvokerKind, l: InvokerKind)
    ensures RejectionError(k) == RejectionError(l) <==> k == l
  {
    var e := RejectionMessage(EcsInvoker);
    var o := RejectionMessage(LocalInvoker);
    var g := RejectionMessage(GkeInvoker);
    assert |e| != |o| && |e| != |g| && |o| != |g|;
    if RejectionError(k) == RejectionError(l) {
      assert RejectionMessage(k) == RejectionError(k).message[1..|RejectionError(k).message| - 1];
      assert RejectionMessage(l) == RejectionError(l).message[1..|RejectionError(l).message| - 1];
    }
  }

  /** The definition of a JAR request: name and JDK version are read from
      the lower-cased request; a non-empty request without `:` throws. */
  function JarDefinition(request: string, inputs: Inputs): (r: Result<FunctionDefinition>)
    ensures r.Err? <==> Lower(request) != [] && ':' !in Lower(request)
    ensures r.Ok? ==> r.value.Valid() && r.value.functionInputs == inputs && r.value.functionOutputs == None
    ensures r.Ok? && Lower(request) != [] ==>
      r.value.javaVersion.Some? && r.value.functionName + ":" + r.value.javaVersion.value == Lower(request)
  {
    var lowered := Lower(request);
    match Utils.ExtractFunctionNameFromFunction(lowered)
    case Err(e) => Err(e)
    case Ok(name) =>
      var d := ForJar(name, inputs, Utils.ExtractJdkVersionFromFunction(lowered));
      if ':' in lowered then Utils.FunctionRequestRoundTrip(lowered); Ok(d) else Ok(d)
  }

  /** Lower-casing commutes with the request's split: `Name:Version` gives
      the function `name` with version `version`. */
  lemma JarRequestParsedLowerCase(name: string, version: string, inputs: Inputs)
    requires ':' !in name
    ensures JarDefinition(name + ":" + version, inputs) == Ok(ForJar(Lower(name), inputs, Lower(version)))
  {
    LowerAppend(name + ":", version);
    LowerAppend(name, ":");
    assert Lower(":") == ":";
    assert ':' !in Lower(name) by {
      forall i | 0 <= i < |name|
        ensures Lower(name)[i] != ':'
      {
        assert name[i] != ':';
      }
    }
    Utils.FunctionRequestFromParts(Lower(name), Lower(version));
  }

  /** The definition of an image link: the function is the tag after the
      last `:` of the lower-cased link. */
  function ImageDefinition(link: string, inputs: Inputs): (d: FunctionDefinition)
    ensures d.Valid() && d.functionInputs == inputs && d.javaVersion == None && d.functionOutputs == None
    ensures ':' !in d.functionName && |d.functionName| <= |link|
    ensures d.functionName == Lower(link)[|link| - |d.functionName|..]
  {
    ForImage(Utils.GetFunctionNameFromDockerhubLink(Lower(link)), inputs)
  }

  /** `Repo/Image:Tag` runs the function `tag`. */
  lemma ImageLinkParsedLowerCase(image: string, tag: string, inputs: Inputs)
    requires ':' !in tag
    ensures ImageDefinition(image + ":" + tag, inputs).functionName == Lower(tag)
  {
    LowerAppend(image + ":", tag);
    LowerAppend(image, ":");
    assert Lower(":") == ":";
    assert ':' !in Lower(tag) by {
      forall i | 0 <= i < |tag|
        ensures Lower(tag)[i] != ':'
      {
        assert tag[i] != ':';
      }
    }
    Utils.DockerhubLinkFromParts(Lower(image), Lower(tag));
  }

  /** The common end of every path once the outputs are set: the teardown
      has run, then the cleaner, which throws while unassigned; the outputs
      are returned. */
  function Conclude(env: Env, before: seq<Event>, teardown: seq<Event>, outputs: Option<Json>): (r: Run<Option<Json>>)
    ensures r.value.Ok? <==> env.cleanerAssigned
    ensures r.value.Ok? ==> r.value.value == outputs && r.events == before + teardown + [CleanDirectories]
    ensures r.value.Err? ==> r.value.error == NullReference && r.events == before + teardown
  {
    if env.cleanerAssigned then Run(before + teardown + [CleanDirectories], Ok(outputs))
    else Run(before + teardown, Err(NullReference))
  }

  /** What both ECS paths do once the deployment has run: read the result
      from CloudWatch, set it as the outputs, clean up (removing the
      function image iff `deleteImage`), clean the local files. A failed
      deployment or retrieval throws before any teardown. */
  function EcsAfterDeployment(env: Env, h: seq<Event>, d: FunctionDefinition, deployed: Run<AwsExecutor>, deleteImage: bool): (r: Run<Option<Json>>)
    ensures deployed.events <= r.events
    ensures deployed.value.Err? ==> r == Run(deployed.events, Err(deployed.value.error))
    ensures deployed.value.Ok? ==>
      var result := ContainerExecutionResult(env.logStore, env.parse, deployed.value.value, d.functionName);
      (result.value.Err? ==> r == Run(deployed.events + result.events, Err(result.value.error))) &&
      (result.value.Ok? ==>
        var before := deployed.events + result.events;
        r == Conclude(env, before, CleanUpAllResources(env, h + before, result.value.value.0, deleteImage),
                      SetFunctionOutputs(d, result.value.value.1).functionOutputs))
  {
    match deployed.value
    case Err(e) => Run(deployed.events, Err(e))
    case Ok(x) =>
      var result := ContainerExecutionResult(env.logStore, env.parse, x, d.functionName);
      var before := deployed.events + result.events;
      match result.value
      case Err(e) => Run(before, Err(e))
      case Ok(retrieved) =>
        var withOutputs := SetFunctionOutputs(d, retrieved.1);
        Conclude(env, before, CleanUpAllResources(env, h + before, retrieved.0, deleteImage), withOutputs.functionOutputs)
  }

  /** On success an ECS path ends with the teardown and the cleaner: the
      function image's `docker rmi` exactly when asked, then the two destroy
      commands, the three local Terraform removals, and the cleaning. */
  lemma EcsTeardownShape(env: Env, h: seq<Event>, d: FunctionDefinition, deployed: Run<AwsExecutor>, deleteImage: bool)
    requires EcsAfterDeployment(env, h, d, deployed, deleteImage).value.Ok?
    ensures var r := EcsAfterDeployment(env, h, d, deployed, deleteImage).events;
      var n := if deleteImage then 7 else 6;
      |r| >= |deployed.events| + n && r[|r| - 1] == CleanDirectories &&
      (deleteImage <==> r[|r| - n].Shell? && "docker rmi " <= r[|r| - n].command) &&
      r[|r| - 6] == TerraformContainers.SendCommandToContainer(deployed.value.value.terraform.FunctionName(), TerraformManagers.DestroyCommands[0])
  {
    var before, x2 := EcsSuccessParts(env, h, d, deployed, deleteImage);
    var clean := CleanUpAllResources(env, h + before, x2, deleteImage);
    CleanUpRemovesImageIffAsked(env, h + before, x2, deleteImage);
    ConcludedTail(before, clean, deleteImage,
                  TerraformContainers.SendCommandToContainer(x2.terraform.FunctionName(), TerraformManagers.DestroyCommands[0]));
  }

  /** A successful ECS run is the deployment and the log queries, then the
      cleanup of the executor CloudWatch returned, then the cleaner. */
  lemma EcsSuccessParts(env: Env, h: seq<Event>, d: FunctionDefinition, deployed: Run<AwsExecutor>, deleteImage: bool)
    returns (before: seq<Event>, x2: AwsExecutor)
    requires EcsAfterDeployment(env, h, d, deployed, deleteImage).value.Ok?
    ensures deployed.value.Ok? && x2.terraform == deployed.value.value.terraform && deployed.events <= before
    ensures EcsAfterDeployment(env, h, d, deployed, deleteImage).events ==
      before + CleanUpAllResources(env, h + before, x2, deleteImage) + [CleanDirectories]
  {
    var result := ContainerExecutionResult(env.logStore, env.parse, deployed.value.value, d.functionName);
    before := deployed.events + result.events;
    x2 := result.value.value.0;
  }

  /** A teardown followed by the cleaner, read from the end: the image
      removal when there is one, then the first destroy command. */
  lemma ConcludedTail(before: seq<Event>, clean: seq<Event>, deleteImage: bool, destroy: Event)
    requires var k := if deleteImage then 1 else 0;
      |clean| == k + 5 && clean[k] == destroy &&
      (deleteImage <==> clean[0].Shell? && "docker rmi " <= clean[0].command)
    ensures var r := before + clean + [CleanDirectories];
      var n := if deleteImage then 7 else 6;
      |r| >= |before| + n && r[|r| - 1] == CleanDirectories &&
      (deleteImage <==> r[|r| - n].Shell? && "docker rmi " <= r[|r| - n].command) &&
      r[|r| - 6] == destroy
  {
    var r := before + clean + [CleanDirectories];
    var k := if deleteImage then 1 else 0;
    assert r[|r| - (k + 6)] == clean[0];
    assert r[|r| - 6] == clean[k];
  }

  /** `EcsContainerInvoker.invokeWithJarOnContainer`: the definition comes
      from the lower-cased request, then build, push and deploy, and the
      ECS stages with the function image removed. A malformed request
      issues nothing. */
  function EcsInvokeWithJar(env: Env, h: seq<Event>, request: string, inputs: Inputs): (r: Run<Option<Json>>)
    ensures JarDefinition(request, inputs).Err? ==> r == Run([], Err(JarDefinition(request, inputs).error))
    ensures JarDefinition(request, inputs).Ok? ==>
      var d := JarDefinition(request, inputs).value;
      r == EcsAfterDeployment(env, h, d, ExecuteFunctionWithJarInEcs(env, h, NewAwsExecutor(env.config, d, Ecs), d.jarFileName), true)
  {
    match JarDefinition(request, inputs)
    case Err(e) => Run([], Err(e))
    case Ok(d) =>
      EcsAfterDeployment(env, h, d, ExecuteFunctionWithJarInEcs(env, h, NewAwsExecutor(env.config, d, Ecs), d.jarFileName), true)
  }

  /** `EcsContainerInvoker.invokeWithDockerhubImageOnContainer`: the
      definition and the deployed image come from the lower-cased link; the
      ECS stages run keeping the image. The first event writes a descriptor
      that deploys exactly that link. */
  function EcsInvokeWithDockerhubImage(env: Env, h: seq<Event>, link: string, inputs: Inputs): (r: Run<Option<Json>>)
    ensures var d := ImageDefinition(link, inputs);
      var exec := ExecuteFunctionWithDockerhubInEcs(env, h, NewAwsExecutor(env.config, d, Ecs), Lower(link));
      r == EcsAfterDeployment(env, h, d, Run(exec.1, Ok(exec.0)), false)
    ensures |r.events| > 0 && r.events[0].WriteDescriptor? && r.events[0].descriptor.dockerImage == Lower(link)
  {
    var d := ImageDefinition(link, inputs);
    var exec := ExecuteFunctionWithDockerhubInEcs(env, h, NewAwsExecutor(env.config, d, Ecs), Lower(link));
    var r := EcsAfterDeployment(env, h, d, Run(exec.1, Ok(exec.0)), false);
    assert r.events[0] == exec.1[0];
    r
  }

  /** What both local paths do once the container has run: read its
      result, set it as the outputs, remove container and image, clean the
      local files. A failed run or parse throws before any removal. */
  function LocalAfterRun(env: Env, h: seq<Event>, d: FunctionDefinition, ran: Run<LocalExecutor>): (r: Run<Option<Json>>)
    ensures ran.events <= r.events
    ensures ran.value.Err? ==> r == Run(ran.events, Err(ran.value.error))
    ensures ran.value.Ok? ==>
      var result := ResultFromLocalContainerExecution(env.parse, ran.value.value);
      (result.1.Err? ==> r == Run(ran.events, Err(result.1.error))) &&
      (result.1.Ok? ==>
        r == Conclude(env, ran.events, RemoveLocalDockerResources(env, h + ran.events, result.0),
                      SetFunctionOutputs(d, result.1.value).functionOutputs))
  {
    match ran.value
    case Err(e) => Run(ran.events, Err(e))
    case Ok(x) =>
      var result := ResultFromLocalContainerExecution(env.parse, x);
      match result.1
      case Err(e) => Run(ran.events, Err(e))
      case Ok(outputs) =>
        var withOutputs := SetFunctionOutputs(d, outputs);
        Conclude(env, ran.events, RemoveLocalDockerResources(env, h + ran.events, result.0), withOutputs.functionOutputs)
  }

  /** A container that never produced output makes the local stages throw
      before removing anything. */
  lemma NoOutputNoTeardown(env: Env, h: seq<Event>, d: FunctionDefinition, ran: Run<LocalExecutor>)
    requires ran.value.Ok? && ran.value.value.output.None?
    ensures LocalAfterRun(env, h, d, ran) == Run(ran.events, Err(NullReference))
  {
  }

  /** `LocalContainerInvoker.invokeWithJarOnContainer`: the definition comes
      from the lower-cased request, then build and start, and the local
      stages. A malformed request issues nothing. */
  function LocalInvokeWithJar(env: Env, h: seq<Event>, request: string, inputs: Inputs): (r: Run<Option<Json>>)
    ensures JarDefinition(request, inputs).Err? ==> r == Run([], Err(JarDefinition(request, inputs).error))
    ensures JarDefinition(request, inputs).Ok? ==>
      var d := JarDefinition(request, inputs).value;
      r == LocalAfterRun(env, h, d, ExecuteWithJar(env, h, NewLocalExecutor(d)))
  {
    match JarDefinition(request, inputs)
    case Err(e) => Run([], Err(e))
    case Ok(d) => LocalAfterRun(env, h, d, ExecuteWithJar(env, h, NewLocalExecutor(d)))
  }

  /** `LocalContainerInvoker.invokeWithDockerhubImageOnContainer`: the
      lower-cased link names the function and becomes the image name; pull,
      check and start, then the local stages. The first commands log in and
      pull exactly that link. */
  function LocalInvokeWithDockerhubImage(env: Env, h: seq<Event>, link: string, inputs: Inputs): (r: Run<Option<Json>>)
    ensures var d := ImageDefinition(link, inputs);
      var x := NewLocalExecutor(d);
      r == LocalAfterRun(env, h, d, ExecuteWithDockerhub(env, h, x.(imageManager := SetImageName(x.imageManager, Lower(link)))))
    ensures var wd := LocalWorkingDirectory(ImageDefinition(link, inputs).functionName);
      |r.events| >= 3 && r.events[1] == Shell(wd, "docker image pull " + Lower(link))
  {
    var d := ImageDefinition(link, inputs);
    var x := NewLocalExecutor(d);
    var ran := ExecuteWithDockerhub(env, h, x.(imageManager := SetImageName(x.imageManager, Lower(link))));
    var r := LocalAfterRun(env, h, d, ran);
    assert r.events[1] == ran.events[1];
    r
  }

  /** While `docker image ls` exits normally, the local Docker Hub route
      never returns a result: the pull check as written fails, no container
      runs, and reading the unset output throws before anything is
      removed. */
  lemma LocalDockerhubInvokeThrows(env: Env, h: seq<Event>, link: string, inputs: Inputs)
    requires '\n' !in ImageDefinition(link, inputs).functionName
    requires forall g :: env.run(g, LocalFunctionDocker, ImageListCommand).exitCode == 0
    ensures var r := LocalInvokeWithDockerhubImage(env, h, link, inputs);
      |r.events| == 3 && r.value.Err?
    ensures Utils.GetImageNameWithoutTagFromDockerhubLink(Lower(link)).Ok? ==>
      LocalInvokeWithDockerhubImage(env, h, link, inputs).value == Err(NullReference)
  {
    var d := ImageDefinition(link, inputs);
    var x := NewLocalExecutor(d);
    var named := x.(imageManager := SetImageName(x.imageManager, Lower(link)));
    assert named.imageManager.FunctionName() == d.functionName && named.imageManager.imageName == Some(Lower(link));
    assert named.output == None;
    DockerhubRunNeverStarts(env, h, named);
    var ran := ExecuteWithDockerhub(env, h, named);
    UnstartedRunThrows(env, h, d, ran);
    assert LocalInvokeWithDockerhubImage(env, h, link, inputs) == LocalAfterRun(env, h, d, ran);
  }

  /** A run that never started a container leaves nothing to remove: the
      local stages throw with exactly the run's events. */
  lemma UnstartedRunThrows(env: Env, h: seq<Event>, d: FunctionDefinition, ran: Run<LocalExecutor>)
    requires ran.value.Ok? ==> ran.value.value.output.None?
    ensures LocalAfterRun(env, h, d, ran).events == ran.events
    ensures LocalAfterRun(env, h, d, ran).value.Err?
    ensures ran.value.Ok? ==> LocalAfterRun(env, h, d, ran).value == Err(NullReference)
  {
    if ran.value.Ok? {
      NoOutputNoTeardown(env, h, d, ran);
    }
  }

  /** What the GKE placeholder returns for every request. */
  const EmptyObject := Json("{}")

  /** `invokeFunction`: classify the resource link extracted from the
      request and run the selected path; a rejected link throws with the
      invoker's message before anything is issued. The ECR route runs the
      ECS image path. */
  function InvokeFunction(env: Env, h: seq<Event>, kind: InvokerKind, request: string, inputs: Inputs): (r: Run<Option<Json>>)
    ensures var link := env.extractResourceLink(request);
      Classify(env, kind, link) == Rejected ==> r == Run([], Err(RejectionError(kind)))
    ensures var link := env.extractResourceLink(request);
      match Classify(env, kind, link)
      case EcrImage => r == EcsInvokeWithDockerhubImage(env, h, link, inputs)
      case DockerhubImage => r == LocalInvokeWithDockerhubImage(env, h, link, inputs)
      case JarResource =>
        (kind == EcsInvoker ==> r == EcsInvokeWithJar(env, h, link, inputs)) &&
        (kind == LocalInvoker ==> r == LocalInvokeWithJar(env, h, link, inputs)) &&
        (kind == GkeInvoker ==> r == Run([], Ok(Some(EmptyObject))))
      case Rejected => true
  {
    var link := env.extractResourceLink(request);
    var r := match Classify(env, kind, link)
      case EcrImage => EcsInvokeWithDockerhubImage(env, h, link, inputs)
      case DockerhubImage => LocalInvokeWithDockerhubImage(env, h, link, inputs)
      case JarResource =>
        (match kind
         case EcsInvoker => EcsInvokeWithJar(env, h, link, inputs)
         case LocalInvoker => LocalInvokeWithJar(env, h, link, inputs)
         case GkeInvoker => Run([], Ok(Some(EmptyObject))))
      case Rejected => Run([], Err(RejectionError(kind)));
    r
  }

  /** Only the extracted resource link matters: two requests with the same
      link are invoked alike. */
  lemma ClassifiedByExtractedLink(env: Env, h: seq<Event>, kind: InvokerKind, f: string, g: string, inputs: Inputs)
    requires env.extractResourceLink(f) == env.extractResourceLink(g)
    ensures InvokeFunction(env, h, kind, f, inputs) == InvokeFunction(env, h, kind, g, inputs)
  {
  }
}
