/** `jContainer.executor.AwsContainerExecutor`: runs a function on AWS ECS
    through an image, a Terraform deployment and CloudWatch. */
module AwsExecutors {
  import opened Wrappers
  import opened Text
  import opened Constants
  import opened World
  import opened FunctionDefinitions
  import opened Managers
  import opened ImageManagers
  import opened TerraformManagers
  import opened CloudWatch

  /** The three managers of one execution. */
  datatype AwsExecutor = AwsExecutor(imageManager: ImageManager, cloudWatch: CloudWatchManager, terraform: TerraformManager)

  /** All three managers are built for the same definition. */
  function NewAwsExecutor(c: Config, d: FunctionDefinition, kind: ExecutionType): (x: AwsExecutor)
    ensures x.imageManager == NewImageManager(d, kind)
    ensures x.cloudWatch == NewCloudWatchManager(c, d.functionName)
    ensures x.terraform == NewTerraformManager(c, d)
  {
    AwsExecutor(NewImageManager(d, kind), NewCloudWatchManager(c, d.functionName), NewTerraformManager(c, d))
  }

  /** For a lower-case function (the invokers lower-case it), the
      descriptor a fresh executor deploys makes the task log where its
      CloudWatch manager looks exactly when the local user is lower case:
      the streams always lie under the queried prefix, but the group matches
      only then. */
  lemma ResultQueriedWhereTaskLogs(c: Config, d: FunctionDefinition, kind: ExecutionType)
    requires IsLowerCase(d.functionName)
    ensures var x := NewAwsExecutor(c, d, kind);
      var descriptor := AwsDescriptorAsWritten(c, x.terraform);
      (descriptor.logGroupName == x.cloudWatch.logGroupName <==> IsLowerCase(c.localUser)) &&
      LogStreamPrefix(d.functionName) == descriptor.logStreamPrefix + "/" + descriptor.functionName
  {
    var x := NewAwsExecutor(c, d, kind);
    LogGroupMatchesOnlyForLowerCaseUser(c, x.terraform);
    DescriptorStreamsMatchQuery(c, x.terraform);
  }

  /** With the evidently intended descriptor the task always logs where the
      CloudWatch manager looks, whatever the case of the local user. */
  lemma ResultQueriedWhereTaskLogsIntended(c: Config, d: FunctionDefinition, kind: ExecutionType)
    ensures var x := NewAwsExecutor(c, d, kind);
      var descriptor := AwsDescriptor(c, x.terraform);
      descriptor.logGroupName == x.cloudWatch.logGroupName &&
      LogStreamPrefix(d.functionName) == descriptor.logStreamPrefix + "/" + descriptor.functionName
  {
    DescriptorStreamsMatchQuery(c, NewAwsExecutor(c, d, kind).terraform);
  }

  /** `executeFunctionWithJarInECS`: build the image, push it, deploy. A
      failed build stops before anything is pushed or deployed. */
  function ExecuteFunctionWithJarInEcs(env: Env, h: seq<Event>, x: AwsExecutor, file: string): (r: Run<AwsExecutor>)
    ensures var built := CreateDockerImage(env, h, x.imageManager, file);
      built.value.Err? ==> r.events == built.events && r.value == Err(built.value.error)
    ensures var built := CreateDockerImage(env, h, x.imageManager, file);
      built.value.Ok? ==>
        var k := |built.events|;
        var wd := x.imageManager.manager.workingDirectory;
        r.value == Ok(x.(imageManager := built.value.value)) &&
        |r.events| >= k + 7 && r.events[..k] == built.events &&
        r.events[k + 1] == Shell(wd, "docker push " + DockerHubImageName(env.config, x.imageManager.FunctionName())) &&
        r.events[k + 2] == CreateAwsTerraformScript(env.config, x.terraform)
    ensures var built := CreateDockerImage(env, h, x.imageManager, file);
      built.value.Ok? ==>
        var push := PushDockerImageToHub(env.config, built.value.value);
        r.events == built.events + push + RunTerraformScript(env, h + built.events + push, x.terraform)
  {
    var built := CreateDockerImage(env, h, x.imageManager, file);
    match built.value
    case Err(e) => Run(built.events, Err(e))
    case Ok(im) =>
      var push := PushDockerImageToHub(env.config, im);
      var deploy := RunTerraformScript(env, h + built.events + push, x.terraform);
      ThreePartIndices(built.events, push, deploy);
      Run(built.events + push + deploy, Ok(x.(imageManager := im)))
  }

  /** Positions in a build, a two-step push and a deployment laid end to end. */
  lemma ThreePartIndices(a: seq<Event>, b: seq<Event>, c: seq<Event>)
    requires |b| == 2 && |c| >= 5
    ensures var s := a + b + c;
      |s| >= |a| + 7 && s[..|a|] == a && s[|a| + 1] == b[1] && s[|a| + 2] == c[0]
  {
    var s := a + b + c;
    assert s[..|a|] == a;
    assert s[|a| + 1] == b[1];
    assert s[|a| + 2] == c[0];
  }

  /** For a fresh executor the JAR path deploys the image it pushed: the
      push comes first, and the descriptor written after it names the same
      Docker Hub image. */
  lemma JarDeploymentRunsPushedImage(env: Env, h: seq<Event>, d: FunctionDefinition, file: string)
    requires ExecuteFunctionWithJarInEcs(env, h, NewAwsExecutor(env.config, d, Ecs), file).value.Ok?
    ensures var r := ExecuteFunctionWithJarInEcs(env, h, NewAwsExecutor(env.config, d, Ecs), file);
      var image := DockerHubImageName(env.config, d.functionName);
      exists i, j :: 0 <= i < j < |r.events| &&
        r.events[i].Shell? && r.events[i].command == "docker push " + image &&
        r.events[j].WriteDescriptor? && r.events[j].descriptor.dockerImage == image
  {
    var x := NewAwsExecutor(env.config, d, Ecs);
    var r := ExecuteFunctionWithJarInEcs(env, h, x, file);
    var k := |CreateDockerImage(env, h, x.imageManager, file).events|;
    var image := DockerHubImageName(env.config, d.functionName);
    var script := CreateAwsTerraformScript(env.config, x.terraform);
    assert script.descriptor.dockerImage == image;
    assert r.events[k + 2] == script;
    assert r.events[k + 1].command == "docker push " + image;
  }

  /** `executeFunctionWithDockerhubInECS`: no build and no push; the given
      image becomes the image manager's and the descriptor's image, then the
      deployment runs. */
  function ExecuteFunctionWithDockerhubInEcs(env: Env, h: seq<Event>, x: AwsExecutor, link: string): (r: (AwsExecutor, seq<Event>))
    ensures r.0.imageManager == SetImageName(x.imageManager, link)
    ensures r.0.terraform == SetDockerImageName(x.terraform, link) && r.0.cloudWatch == x.cloudWatch
    ensures |r.1| >= 5 && r.1[0].WriteDescriptor? && r.1[0].descriptor.dockerImage == link
    ensures r.1[|r.1| - 3..] == ExecTerraformCommand(x.terraform.FunctionName(), ApplyCommands)
    ensures forall e :: e in r.1 ==> !e.WriteFile? || e.path == LocalTerraformDocker + "Dockerfile"
    ensures r.1 == RunTerraformScript(env, h, r.0.terraform)
  {
    var im := SetImageName(x.imageManager, link);
    var t := SetDockerImageName(x.terraform, JavaText(im.imageName));
    var events := RunTerraformScript(env, h, t);
    ImageOnlyFromTerraform(env, h, t);
    (x.(imageManager := im, terraform := t), events)
  }

  /** The only file a deployment writes besides the descriptor is the
      Terraform image's Dockerfile. */
  lemma ImageOnlyFromTerraform(env: Env, h: seq<Event>, t: TerraformManager)
    ensures forall e :: e in RunTerraformScript(env, h, t) ==> !e.WriteFile? || e.path == LocalTerraformDocker + "Dockerfile"
  {
    var r := RunTerraformScript(env, h, t);
    var f := t.FunctionName();
    var container := r[1..|r| - 3];
    var apply := r[|r| - 3..];
    assert r == [r[0]] + container + apply;
    ContainerStartWritesOnlyDockerfile(env, h + [r[0]], f);
    assert OnlyDockerfileWritten(apply) by {
      assert forall i :: 0 <= i < |apply| ==> apply[i] == TerraformContainers.SendCommandToContainer(f, ApplyCommands[i]);
    }
    OnlyDockerfileWrittenAppend([r[0]], container);
    OnlyDockerfileWrittenAppend([r[0]] + container, apply);
    OnlyDockerfileWrittenMembers(r);
  }

  /** No event of `events` writes a file other than the Terraform image's
      Dockerfile. */
  predicate OnlyDockerfileWritten(events: seq<Event>) {
    forall i :: 0 <= i < |events| ==> !events[i].WriteFile? || events[i].path == LocalTerraformDocker + "Dockerfile"
  }

  lemma OnlyDockerfileWrittenAppend(a: seq<Event>, b: seq<Event>)
    requires OnlyDockerfileWritten(a) && OnlyDockerfileWritten(b)
    ensures OnlyDockerfileWritten(a + b)
  {
    forall i | 0 <= i < |a + b|
      ensures !(a + b)[i].WriteFile? || (a + b)[i].path == LocalTerraformDocker + "Dockerfile"
    {
      if i >= |a| {
        assert (a + b)[i] == b[i - |a|];
      }
    }
  }

  lemma OnlyDockerfileWrittenMembers(events: seq<Event>)
    requires OnlyDockerfileWritten(events)
    ensures forall e :: e in events ==> !e.WriteFile? || e.path == LocalTerraformDocker + "Dockerfile"
  {
    forall e | e in events
      ensures !e.WriteFile? || e.path == LocalTerraformDocker + "Dockerfile"
    {
      var i :| 0 <= i < |events| && events[i] == e;
    }
  }

  /** Starting the Terraform container writes no file but its Dockerfile. */
  lemma ContainerStartWritesOnlyDockerfile(env: Env, h: seq<Event>, f: string)
    ensures OnlyDockerfileWritten(TerraformContainers.StartTerraformContainer(env, h, f))
  {
    var image := TerraformContainers.CreateLocalTerraformImage(env, h, f);
    var c := TerraformContainers.StartTerraformContainer(env, h, f);
    DockerfileThenShell(image);
    PrefixThenShell(image, c);
  }

  /** The Dockerfile write, possibly followed by a command. */
  lemma DockerfileThenShell(image: seq<Event>)
    requires |image| == 1 || |image| == 2
    requires image[0].WriteFile? && image[0].path == LocalTerraformDocker + "Dockerfile"
    requires |image| == 2 ==> image[1].Shell?
    ensures OnlyDockerfileWritten(image)
  {
  }

  /** A sequence that writes only the Dockerfile, possibly followed by a
      command. */
  lemma PrefixThenShell(image: seq<Event>, c: seq<Event>)
    requires OnlyDockerfileWritten(image) && image <= c
    requires |c| == |image| || (|c| == |image| + 1 && c[|image|].Shell?)
    ensures OnlyDockerfileWritten(c)
  {
    if |c| > |image| {
      assert c == image + [c[|image|]];
      OnlyDockerfileWrittenAppend(image, [c[|image|]]);
    } else {
      assert c == image;
    }
  }

  /** `containerExecutionTime`: the time of the event the CloudWatch manager
      selected; throws while none is selected. */
  function ContainerExecutionTime(x: AwsExecutor): (r: Result<int>)
    ensures r.Err? <==> x.cloudWatch.resultEvent.None?
    ensures r.Ok? ==> InLongRange(r.value)
    ensures r == ExecutionTimeFromLogEvent(x.cloudWatch)
  {
    ExecutionTimeFromLogEvent(x.cloudWatch)
  }

  /** `containerExecutionResult`: the CloudWatch manager's result for the
      function; only log queries are issued, all to the manager's group. */
  function ContainerExecutionResult(store: (string, string) -> seq<seq<LogEvent>>, parse: string -> Parsed,
                                    x: AwsExecutor, f: string): (r: Run<(AwsExecutor, Option<Json>)>)
    ensures forall e :: e in r.events ==> e == LogQuery(x.cloudWatch.logGroupName, LogStreamPrefix(f))
    ensures r.value.Ok? ==> r.value.value.0.imageManager == x.imageManager && r.value.value.0.terraform == x.terraform
    ensures f == [] && x.cloudWatch.resultEvent.None? ==> r.value == Err(NullReference)
    ensures r.value.Ok? ==> r.value.value.0.cloudWatch.resultEvent.Some?
    ensures var res := ResultFromLogStreamPrefix(store, parse, x.cloudWatch, f);
      r.events == res.events &&
      (res.value.Err? ==> r.value == Err(res.value.error)) &&
      (res.value.Ok? ==> r.value == Ok((x.(cloudWatch := res.value.value.0), res.value.value.1)))
  {
    var result := ResultFromLogStreamPrefix(store, parse, x.cloudWatch, f);
    match result.value
    case Err(e) => Run(result.events, Err(e))
    case Ok(pair) => Run(result.events, Ok((x.(cloudWatch := pair.0), pair.1)))
  }

  /** Once a result has been retrieved, the execution time the invokers
      log is defined: retrieving selects an event. */
  lemma ExecutionTimeAfterResult(store: (string, string) -> seq<seq<LogEvent>>, parse: string -> Parsed,
                                 x: AwsExecutor, f: string)
    requires ContainerExecutionResult(store, parse, x, f).value.Ok?
    ensures ContainerExecutionTime(ContainerExecutionResult(store, parse, x, f).value.value.0).Ok?
  {
  }

  /** `cleanUpAllResources`: remove the function image when asked, destroy
      the deployed resources, then remove the local Terraform container and
      image; the success flag of the last step is dropped. */
  function CleanUpAllResources(env: Env, h: seq<Event>, x: AwsExecutor, deleteLocalImage: bool): (r: seq<Event>)
    ensures var n := if deleteLocalImage then 1 else 0;
      |r| == n + 5 &&
      r[..n] == (if deleteLocalImage then RemoveDockerImage(x.imageManager) else []) &&
      r[n..n + 2] == RemoveTerraformCreatedResources(x.terraform)
  {
    var image := if deleteLocalImage then RemoveDockerImage(x.imageManager) else [];
    var destroy := RemoveTerraformCreatedResources(x.terraform);
    var local := RemoveLocalCreatedTerraformResources(env, h + (image + destroy), x.terraform);
    var r := image + destroy + local.events;
    assert r[..|image|] == image;
    assert r[|image|..|image| + 2] == destroy;
    r
  }

  /** The clean-up ends with the local Terraform removal, run after the
      image removal and the destroy commands. */
  lemma CleanUpEndsWithLocalRemoval(env: Env, h: seq<Event>, x: AwsExecutor, deleteLocalImage: bool)
    ensures var r := CleanUpAllResources(env, h, x, deleteLocalImage);
      var n := if deleteLocalImage then 1 else 0;
      r[n + 2..] == RemoveLocalCreatedTerraformResources(env, h + r[..n + 2], x.terraform).events
  {
    var image := if deleteLocalImage then RemoveDockerImage(x.imageManager) else [];
    var destroy := RemoveTerraformCreatedResources(x.terraform);
    var local := RemoveLocalCreatedTerraformResources(env, h + (image + destroy), x.terraform);
    var r := image + destroy + local.events;
    assert r[..|image| + 2] == image + destroy;
    assert r[|image| + 2..] == local.events;
  }

  /** The clean-up removes the function image exactly when asked: its
      first command is a `docker rmi` iff `deleteLocalImage`, and the
      destroy sequence follows. */
  lemma CleanUpRemovesImageIffAsked(env: Env, h: seq<Event>, x: AwsExecutor, deleteLocalImage: bool)
    ensures var r := CleanUpAllResources(env, h, x, deleteLocalImage);
      var n := if deleteLocalImage then 1 else 0;
      (deleteLocalImage <==> r[0].Shell? && "docker rmi " <= r[0].command) &&
      r[n] == TerraformContainers.SendCommandToContainer(x.terraform.FunctionName(), DestroyCommands[0])
  {
    var r := CleanUpAllResources(env, h, x, deleteLocalImage);
    var n := if deleteLocalImage then 1 else 0;
    var image := if deleteLocalImage then RemoveDockerImage(x.imageManager) else [];
    var destroy := RemoveTerraformCreatedResources(x.terraform);
    CleanUpParts(x, deleteLocalImage);
    SliceElements(r, n, image, destroy);
  }

  /** Cleaning up destroys in the container that deployed: both destroy
      commands are `docker exec` into the function's Terraform container,
      where the apply commands ran. */
  lemma CleanUpDestroysInDeployingContainer(env: Env, h: seq<Event>, x: AwsExecutor, deleteLocalImage: bool)
    ensures var clean := CleanUpAllResources(env, h, x, deleteLocalImage);
      var n := if deleteLocalImage then 1 else 0;
      var p := "docker exec " + TerraformContainers.TerraformContainerName(x.terraform.FunctionName()) + " ";
      clean[n] == Shell(LocalTerraformDocker, p + DestroyCommands[0]) &&
      clean[n + 1] == Shell(LocalTerraformDocker, p + DestroyCommands[1])
  {
    var clean := CleanUpAllResources(env, h, x, deleteLocalImage);
    var n := if deleteLocalImage then 1 else 0;
    var image := if deleteLocalImage then RemoveDockerImage(x.imageManager) else [];
    var destroy := RemoveTerraformCreatedResources(x.terraform);
    CleanUpParts(x, deleteLocalImage);
    SliceElements(clean, n, image, destroy);
  }

  /** The parts a clean-up is made of: the optional `docker rmi`, then the
      two destroy commands sent into the function's container, neither of
      which is a `docker rmi`. */
  lemma CleanUpParts(x: AwsExecutor, deleteLocalImage: bool)
    ensures var image := if deleteLocalImage then RemoveDockerImage(x.imageManager) else [];
      |image| == (if deleteLocalImage then 1 else 0) &&
      (deleteLocalImage ==> image[0].Shell? && "docker rmi " <= image[0].command)
    ensures var destroy := RemoveTerraformCreatedResources(x.terraform);
      var p := "docker exec " + TerraformContainers.TerraformContainerName(x.terraform.FunctionName()) + " ";
      |destroy| == 2 &&
      destroy[0] == Shell(LocalTerraformDocker, p + DestroyCommands[0]) &&
      destroy[1] == Shell(LocalTerraformDocker, p + DestroyCommands[1]) &&
      destroy[0] == TerraformContainers.SendCommandToContainer(x.terraform.FunctionName(), DestroyCommands[0]) &&
      !("docker rmi " <= destroy[0].command)
  {
    var destroy := RemoveTerraformCreatedResources(x.terraform);
    assert destroy[0].command[7] == 'e';
    assert "docker rmi "[7] == 'r';
  }

  /** The events of a clean-up read off its parts. */
  lemma SliceElements(r: seq<Event>, n: nat, image: seq<Event>, destroy: seq<Event>)
    requires |image| == n && |destroy| == 2 && n + 2 <= |r|
    requires r[..n] == image && r[n..n + 2] == destroy
    ensures r[n] == destroy[0] && r[n + 1] == destroy[1]
    ensures n > 0 ==> r[0] == image[0]
  {
    assert r[n..n + 2][0] == r[n] && r[n..n + 2][1] == r[n + 1];
    if n > 0 {
      assert r[..n][0] == r[0];
    }
  }
}
