/** `jContainer.executor.LocalDockerContainerExecutor`: runs a function in a
    container on the local Docker engine, from a JAR or from a Docker Hub
    image, captures its log, and removes the container and the image. */
module LocalExecutors {
  import opened Wrappers
  import opened Text
  import opened Constants
  import opened World
  import opened Terminal
  import opened FunctionDefinitions
  import opened Managers
  import opened ImageManagers
  import Utils

  datatype LocalExecutor = LocalExecutor(
    definition: FunctionDefinition,
    containerName: string,
    imageManager: ImageManager,
    output: Option<string>)

  /** The name of the function's container. */
  function LocalContainerName(f: string): string {
    "local-function_" + f
  }

  function NewLocalExecutor(d: FunctionDefinition): (x: LocalExecutor)
    ensures x.definition == d && x.output == None
    ensures x.containerName == LocalContainerName(d.functionName)
    ensures x.imageManager == NewImageManager(d, LocalDocker)
  {
    LocalExecutor(d, LocalContainerName(d.functionName), NewImageManager(d, LocalDocker), None)
  }

  /** The container name and the local image name of one function never
      coincide, and the container name gives the function back. */
  lemma ContainerNameDiffersFromImageName(f: string, g: string)
    ensures LocalContainerName(f) != "local-function:" + g
    ensures LocalContainerName(f)[|"local-function_"|..] == f
  {
    assert LocalContainerName(f)[14] == '_';
    assert ("local-function:" + g)[14] == ':';
  }

  /** `containerCommandExecutor`: one command in the local function folder. */
  function ContainerCommand(env: Env, h: seq<Event>, command: string): Shelled {
    ExecuteCommand(env.run, h, LocalFunctionDocker, [command])
  }

  /** `getContainerOutput`: the first entry of the `docker logs` outputs;
      `get(0)` throws on an empty list. */
  function GetContainerOutput(env: Env, h: seq<Event>, x: LocalExecutor): (r: Run<LocalExecutor>)
    ensures r.events == [Shell(LocalFunctionDocker, "docker logs " + x.containerName)]
    ensures var o := CommandOutput(env.run(h, LocalFunctionDocker, "docker logs " + x.containerName));
      (o == [] ==> r.value == Err(IndexOutOfBounds)) &&
      (o != [] ==> r.value == Ok(x.(output := Some(o))))
  {
    var logs := ContainerCommand(env, h, "docker logs " + x.containerName);
    SingleCommand(env.run, h, LocalFunctionDocker, "docker logs " + x.containerName);
    if |logs.outputs| == 0 then Run(logs.events, Err(IndexOutOfBounds))
    else Run(logs.events, Ok(x.(output := Some(logs.outputs[0]))))
  }

  /** The command that starts the function's container. */
  function RunCommand(x: LocalExecutor): string {
    "docker run -d -i --name " + x.containerName + " " + JavaText(x.imageManager.imageName)
  }

  /** The guard of `startContainer`: no listed container runs an image whose
      name is the container name. */
  predicate StartAllowed(containers: seq<ContainerInfo>, containerName: string) {
    forall i :: 0 <= i < |containers| ==> containers[i].image != containerName
  }

  /** `startContainer`: when the guard allows it, run the container and
      capture its log; otherwise do nothing. */
  function StartContainer(env: Env, h: seq<Event>, x: LocalExecutor): (r: Run<LocalExecutor>)
    ensures !StartAllowed(env.daemon(h).containers, x.containerName) ==> r == Run([], Ok(x))
    ensures StartAllowed(env.daemon(h).containers, x.containerName) ==>
      |r.events| == 2 &&
      r.events[0] == Shell(LocalFunctionDocker, RunCommand(x)) &&
      r.events[1] == Shell(LocalFunctionDocker, "docker logs " + x.containerName)
    ensures StartAllowed(env.daemon(h).containers, x.containerName) ==>
      var o := CommandOutput(env.run(h + [Shell(LocalFunctionDocker, RunCommand(x))], LocalFunctionDocker, "docker logs " + x.containerName));
      (o == [] ==> r.value == Err(IndexOutOfBounds)) &&
      (o != [] ==> r.value == Ok(x.(output := Some(o))))
    ensures r.value.Ok? ==> r.value.value.definition == x.definition && r.value.value.imageManager == x.imageManager
  {
    if StartAllowed(env.daemon(h).containers, x.containerName) then
      var started := ContainerCommand(env, h, RunCommand(x));
      SingleCommand(env.run, h, LocalFunctionDocker, RunCommand(x));
      var logs := GetContainerOutput(env, h + started.events, x);
      Run(started.events + logs.events, logs.value)
    else Run([], Ok(x))
  }

  /** The guard compares images with the container name, so containers
      started from images this executor builds never block a start. */
  lemma OwnImagesNeverBlockStart(containers: seq<ContainerInfo>, f: string)
    requires forall i :: 0 <= i < |containers| ==>
      exists g :: containers[i].image == "local-function:" + g
    ensures StartAllowed(containers, LocalContainerName(f))
  {
    forall i | 0 <= i < |containers|
      ensures containers[i].image != LocalContainerName(f)
    {
      var g :| containers[i].image == "local-function:" + g;
      ContainerNameDiffersFromImageName(f, g);
    }
  }

  /** `resultFromLocalContainerExecution`: normalises the stored output and
      parses it; an unset output makes `checkForLinebreak` throw. */
  function ResultFromLocalContainerExecution(parse: string -> Parsed, x: LocalExecutor): (r: (LocalExecutor, Result<Option<Json>>))
    ensures x.output.None? ==> r.1 == Err(NullReference)
    ensures x.output.Some? ==>
      r.0 == x.(output := Some(Utils.CheckForLinebreak(x.output.value))) &&
      (r.1.Err? <==> parse(Utils.CheckForLinebreak(x.output.value)).Malformed?)
    ensures x.output.Some? ==> r.1 == GenerateJsonOutput(parse, Utils.CheckForLinebreak(x.output.value))
    ensures x.output.Some? && '\n' !in x.output.value ==> r.1 == GenerateJsonOutput(parse, x.output.value)
  {
    match x.output
    case None => (x, Err(NullReference))
    case Some(o) =>
      var normalised := Utils.CheckForLinebreak(o);
      (x.(output := Some(normalised)), GenerateJsonOutput(parse, normalised))
  }

  /** Reading the result twice gives the same result: the normalisation is
      idempotent. */
  lemma ResultFromLocalContainerExecutionRepeatable(parse: string -> Parsed, x: LocalExecutor)
    ensures var first := ResultFromLocalContainerExecution(parse, x);
      ResultFromLocalContainerExecution(parse, first.0) == first
  {
    if x.output.Some? {
      Utils.CheckForLinebreakIdempotent(x.output.value);
    }
  }

  /** `stopFunctionContainer`. */
  function StopFunctionContainer(x: LocalExecutor): (r: seq<Event>)
    ensures r == [Shell(LocalFunctionDocker, "docker stop " + x.containerName)]
  {
    ShellEventsAt(LocalFunctionDocker, ["docker stop " + x.containerName]);
    ShellEvents(LocalFunctionDocker, ["docker stop " + x.containerName])
  }

  /** Whether some line contains `u`. */
  function AnyLineContains(lines: seq<string>, u: string): (b: bool)
    ensures b <==> exists i :: 0 <= i < |lines| && Contains(lines[i], u)
  {
    if |lines| == 0 then false
    else if Contains(lines[0], u) then true
    else
      var rest := AnyLineContains(lines[1..], u);
      assert forall i :: 1 <= i < |lines| ==> lines[i] == lines[1..][i - 1];
      assert rest ==> exists i :: 1 <= i < |lines| && Contains(lines[i], u) by {
        if rest {
          var j :| 0 <= j < |lines[1..]| && Contains(lines[1..][j], u);
          assert Contains(lines[j + 1], u);
        }
      }
      rest
  }

  /** The scan of `removeLocalContainer` and `removeLocalImage`: the first
      line containing `u` ends it with `true`. */
  method ScanForLine(lines: seq<string>, u: string) returns (found: bool)
    ensures found == AnyLineContains(lines, u)
  {
    var i := 0;
    while i < |lines|
      invariant 0 <= i <= |lines|
      invariant forall j :: 0 <= j < i ==> !Contains(lines[j], u)
    {
      if Contains(lines[i], u) {
        return true;
      }
      i := i + 1;
    }
    return false;
  }

  /** `removeLocalContainer`: `docker rm -f`, successful iff some output
      line names the container. */
  function RemoveLocalContainer(env: Env, h: seq<Event>, x: LocalExecutor): (r: Checked)
    ensures r.events == [Shell(LocalFunctionDocker, "docker rm -f " + x.containerName)]
    ensures var o := CommandOutput(env.run(h, LocalFunctionDocker, "docker rm -f " + x.containerName));
      r.ok <==> o != [] && Contains(o, x.containerName)
  {
    var removal := ContainerCommand(env, h, "docker rm -f " + x.containerName);
    SingleCommand(env.run, h, LocalFunctionDocker, "docker rm -f " + x.containerName);
    Checked(removal.events, AnyLineContains(removal.outputs, x.containerName))
  }

  /** `removeLocalImage`: `docker rmi`, successful iff some output line
      contains `Deleted`. */
  function RemoveLocalImage(env: Env, h: seq<Event>, x: LocalExecutor): (r: Checked)
    ensures r.events == [Shell(LocalFunctionDocker, "docker rmi " + JavaText(x.imageManager.imageName))]
    ensures var o := CommandOutput(env.run(h, LocalFunctionDocker, "docker rmi " + JavaText(x.imageManager.imageName)));
      r.ok <==> o != [] && Contains(o, "Deleted")
  {
    var command := "docker rmi " + JavaText(x.imageManager.imageName);
    var removal := ContainerCommand(env, h, command);
    SingleCommand(env.run, h, LocalFunctionDocker, command);
    Checked(removal.events, AnyLineContains(removal.outputs, "Deleted"))
  }

  /** `removeLocalDockerResources`: the container removal and then the
      image removal, whatever the first one reports. */
  function RemoveLocalDockerResources(env: Env, h: seq<Event>, x: LocalExecutor): (r: seq<Event>)
    ensures r == [Shell(LocalFunctionDocker, "docker rm -f " + x.containerName),
                  Shell(LocalFunctionDocker, "docker rmi " + JavaText(x.imageManager.imageName))]
  {
    var container := RemoveLocalContainer(env, h, x);
    var image := RemoveLocalImage(env, h + container.events, x);
    container.events + image.events
  }

  /** The folder the local executor builds and runs in. */
  function LocalWorkingDirectory(f: string): string {
    LocalFunctionDocker + f + "/"
  }

  /** `executeFunctionWithJarInLocalContainer`: build the image in the
      function's local folder, then start the container. The Dockerfile is
      written to the folder the build runs in, and the container runs the
      image just built. */
  function ExecuteWithJar(env: Env, h: seq<Event>, x: LocalExecutor): (r: Run<LocalExecutor>)
    requires x.imageManager.kind == LocalDocker
    requires x.imageManager.manager.definition == x.definition
    ensures r.value.Ok? ==>
      var f := x.definition.functionName;
      var wd := LocalWorkingDirectory(f);
      var image := "local-function:" + f;
      r.value.value.imageManager.imageName == Some(image) &&
      r.value.value.imageManager.manager.workingDirectory == wd &&
      |r.events| >= 2 &&
      r.events[0].WriteFile? && r.events[0].path == wd + "Dockerfile" &&
      Shell(wd, "docker build ./ -t " + image) in r.events
    ensures var im := x.imageManager.(manager := SetWorkingDirectory(x.imageManager.manager, LocalWorkingDirectory(x.definition.functionName)));
      var built := CreateDockerImage(env, h, im, x.definition.jarFileName);
      (built.value.Err? ==> r == Run(built.events, Err(built.value.error))) &&
      (built.value.Ok? ==>
        var started := StartContainer(env, h + built.events, x.(imageManager := built.value.value));
        built.events <= r.events && r.events[|built.events|..] == started.events && r.value == started.value)
  {
    var f := x.definition.functionName;
    var im := x.imageManager.(manager := SetWorkingDirectory(x.imageManager.manager, LocalWorkingDirectory(f)));
    var built := CreateDockerImage(env, h, im, x.definition.jarFileName);
    if built.value.Err? then Run(built.events, Err(built.value.error))
    else
      var ready := x.(imageManager := built.value.value);
      var started := StartContainer(env, h + built.events, ready);
      assert built.events[|built.events| - 1] in built.events;
      assert (built.events + started.events)[|built.events|..] == started.events;
      Run(built.events + started.events, started.value)
  }

  /** The image manager of a Docker Hub run: the manager works in the
      function's local folder. */
  function PullingImageManager(x: LocalExecutor): (im: ImageManager)
    ensures im.manager.workingDirectory == LocalWorkingDirectory(x.definition.functionName)
    ensures im.manager.definition == x.imageManager.manager.definition
    ensures im.imageName == x.imageManager.imageName && im.kind == x.imageManager.kind
  {
    x.imageManager.(manager := SetWorkingDirectory(x.imageManager.manager, LocalWorkingDirectory(x.definition.functionName)))
  }

  /** What follows the pull and its check: start the container when the
      check succeeded, keep the executor unstarted when it failed, and throw
      the check's exception. */
  function StartIfPulled(env: Env, h: seq<Event>, x: LocalExecutor, prepared: seq<Event>, check: Result<bool>): (r: Run<LocalExecutor>)
    ensures prepared <= r.events
    ensures check == Ok(false) ==> r == Run(prepared, Ok(x))
    ensures check.Err? ==> r == Run(prepared, Err(check.error))
    ensures check == Ok(true) ==>
      var started := StartContainer(env, h + prepared, x);
      r.events[|prepared|..] == started.events && r.value == started.value
  {
    match check
    case Err(e) => Run(prepared, Err(e))
    case Ok(ready) =>
      if ready then
        var started := StartContainer(env, h + prepared, x);
        assert (prepared + started.events)[|prepared|..] == started.events;
        Run(prepared + started.events, started.value)
      else Run(prepared, Ok(x))
  }

  /** `executeFunctionWithDockerhubInLocalContainer`: pull the image in the
      function's local folder, run `checkForSuccessfulImagePull` as written,
      and start the container only when the check succeeds. */
  function ExecuteWithDockerhub(env: Env, h: seq<Event>, x: LocalExecutor): (r: Run<LocalExecutor>)
    ensures var im := PullingImageManager(x);
      var pull := PullDockerImageFromHub(env.config, im);
      var check := CheckForSuccessfulImagePullAsWritten(env, h + pull, im);
      var prepared := pull + check.events;
      |prepared| == 3 && prepared <= r.events &&
      (check.value == Ok(false) ==> r == Run(prepared, Ok(x.(imageManager := im)))) &&
      (check.value == Ok(true) ==>
        r.events[3..] == StartContainer(env, h + prepared, x.(imageManager := im)).events &&
        r.value == StartContainer(env, h + prepared, x.(imageManager := im)).value) &&
      (check.value.Err? ==> r == Run(prepared, Err(check.value.error)))
  {
    var im := PullingImageManager(x);
    var pull := PullDockerImageFromHub(env.config, im);
    var check := CheckForSuccessfulImagePullAsWritten(env, h + pull, im);
    StartIfPulled(env, h, x.(imageManager := im), pull + check.events, check.value)
  }

  /** Since the check as written never succeeds after a listing that exits
      normally, the container is never started: the run ends after the
      login, the pull and the listing, with the output still unset. */
  lemma DockerhubRunNeverStarts(env: Env, h: seq<Event>, x: LocalExecutor)
    requires '\n' !in x.imageManager.FunctionName()
    requires forall g :: env.run(g, LocalFunctionDocker, ImageListCommand).exitCode == 0
    ensures |ExecuteWithDockerhub(env, h, x).events| == 3
    ensures ExecuteWithDockerhub(env, h, x).value.Ok? ==> ExecuteWithDockerhub(env, h, x).value.value.output == x.output
    ensures x.imageManager.imageName.Some? && Utils.GetImageNameWithoutTagFromDockerhubLink(x.imageManager.imageName.value).Ok? ==>
      ExecuteWithDockerhub(env, h, x).value.Ok?
  {
    var im := PullingImageManager(x);
    var pull := PullDockerImageFromHub(env.config, im);
    ImagePullCheckAsWrittenNeverHolds(env, h + pull, im);
  }

  /** The same run with the evidently intended check, which looks for the
      names inside the listed lines. */
  function ExecuteWithDockerhubIntended(env: Env, h: seq<Event>, x: LocalExecutor): (r: Run<LocalExecutor>)
    ensures var im := PullingImageManager(x);
      var pull := PullDockerImageFromHub(env.config, im);
      var check := CheckForSuccessfulImagePull(env, h + pull, im);
      var prepared := pull + check.events;
      |prepared| == 3 && prepared <= r.events &&
      (check.value == Ok(false) ==> r == Run(prepared, Ok(x.(imageManager := im)))) &&
      (check.value == Ok(true) ==>
        r.events[3..] == StartContainer(env, h + prepared, x.(imageManager := im)).events &&
        r.value == StartContainer(env, h + prepared, x.(imageManager := im)).value) &&
      (check.value.Err? ==> r == Run(prepared, Err(check.value.error)))
  {
    var im := PullingImageManager(x);
    var pull := PullDockerImageFromHub(env.config, im);
    var check := CheckForSuccessfulImagePull(env, h + pull, im);
    StartIfPulled(env, h, x.(imageManager := im), pull + check.events, check.value)
  }
}
