/** `jContainer.management.DockerImageManager`: base-image selection,
    Dockerfile rendering, image naming, build with remove-before-build, and
    the push, pull and removal commands. */
module ImageManagers {
  import opened Wrappers
  import opened Text
  import opened Constants
  import opened World
  import opened Terminal
  import opened FunctionDefinitions
  import opened Managers
  import Utils

  /** `jContainer.helper.ExecutionType`. */
  datatype ExecutionType = LocalDocker | Ecs | Gke

  /** The manager's state: the function and working directory it inherits,
      the execution type, the JDK version of the function, and the build
      directory and image name once they are set. */
  datatype ImageManager = ImageManager(
    manager: Manager,
    kind: ExecutionType,
    jdkVersion: Option<string>,
    destinationFolder: Option<string>,
    imageName: Option<string>)
  {
    function FunctionName(): string {
      manager.definition.functionName
    }
  }

  function NewImageManager(d: FunctionDefinition, kind: ExecutionType): (im: ImageManager)
    ensures im.manager == NewManager(d) && im.kind == kind
    ensures im.jdkVersion == d.javaVersion
    ensures im.destinationFolder == None && im.imageName == None
  {
    ImageManager(NewManager(d), kind, d.javaVersion, None, None)
  }

  function SetImageName(im: ImageManager, name: string): (r: ImageManager)
    ensures r.imageName == Some(name)
    ensures r.manager == im.manager && r.kind == im.kind && r.jdkVersion == im.jdkVersion
    ensures r.destinationFolder == im.destinationFolder
  {
    im.(imageName := Some(name))
  }

  /** `selectDockerImageFromJavaVersion`: `"19"` and `"11"` have their own
      base image, every other version gets the JDK 8 image, and an unset
      version makes the `switch` throw. */
  function SelectDockerImageFromJavaVersion(version: Option<string>): (r: Result<string>)
    ensures r == Err(NullReference) <==> version.None?
    ensures r == Ok(OpenJdk19Slim) <==> version == Some("19")
    ensures r == Ok(EclipseTemurinJdk11) <==> version == Some("11")
    ensures r == Ok(AlpineJavaJdk8) <==> version.Some? && version.value != "19" && version.value != "11"
  {
    match version
    case None => Err(NullReference)
    case Some(v) =>
      if v == "19" then Ok(OpenJdk19Slim)
      else if v == "11" then Ok(EclipseTemurinJdk11)
      else Ok(AlpineJavaJdk8)
  }

  /** The text of the function's Dockerfile. */
  function Dockerfile(base: string, file: string, payload: string): string {
    Unlines(["FROM " + base, "WORKDIR /", "ADD . ./", "CMD java -jar " + file + " " + payload])
  }

  /** The Dockerfile holds exactly four lines, in this order, when none of
      its parts holds a line feed. */
  lemma DockerfileHasFourLines(base: string, file: string, payload: string)
    requires '\n' !in base && '\n' !in file && '\n' !in payload
    ensures Split(Dockerfile(base, file, payload), '\n')
         == ["FROM " + base, "WORKDIR /", "ADD . ./", "CMD java -jar " + file + " " + payload, []]
  {
    var lines := ["FROM " + base, "WORKDIR /", "ADD . ./", "CMD java -jar " + file + " " + payload];
    assert '\n' !in "FROM " + base;
    assert '\n' !in "CMD java -jar " + file + " " + payload;
    UnlinesSplit(lines);
  }

  /** The directory the image is built from. */
  function BuildDirectory(kind: ExecutionType, f: string): string {
    if kind == LocalDocker then LocalFunctionDocker + f + "/" else ScriptFolder + f + "/"
  }

  /** The image name `createDockerImage` chooses: `local-function:f` for the
      local engine, `repoLink:f` on ECS (none while the ECR manager is
      unset), the Docker Hub name otherwise. */
  function ImageNameFor(c: Config, kind: ExecutionType, f: string): (r: Option<string>)
    ensures r.None? <==> kind == Ecs && c.ecrRepoLink.None?
  {
    match kind
    case LocalDocker => Some("local-function:" + f)
    case Ecs => if c.ecrRepoLink.None? then None else Some(c.ecrRepoLink.value + ":" + f)
    case Gke => Some(DockerHubImageName(c, f))
  }

  /** Every image name the manager chooses is tagged with the function name. */
  lemma ImageNameTaggedWithFunction(c: Config, kind: ExecutionType, f: string)
    requires ':' !in f && ImageNameFor(c, kind, f).Some?
    ensures Utils.GetFunctionNameFromDockerhubLink(ImageNameFor(c, kind, f).value) == f
  {
    match kind
    case LocalDocker =>
      assert "local-function:" + f == "local-function" + ":" + f;
      Utils.DockerhubLinkFromParts("local-function", f);
    case Ecs =>
      Utils.DockerhubLinkFromParts(c.ecrRepoLink.value, f);
    case Gke =>
      DockerHubImageNameSplits(c, f);
  }

  /** The JAR looked for: under the configured path when it exists there,
      under the fallback folder otherwise. */
  function JarLocation(c: Config, files: string -> Option<nat>, file: string): (r: string)
    ensures files(c.pathToJar + file).Some? ==> r == c.pathToJar + file
    ensures files(c.pathToJar + file).None? ==> r == c.fallbackJarFolder + file
  {
    if files(c.pathToJar + file).Some? then c.pathToJar + file else c.fallbackJarFolder + file
  }

  /** `createDockerfileForFunction`. A JAR found nowhere makes the cleaner
      run and the method throw; an empty JAR, a missing credentials file
      and an unset JDK version throw as well; only a complete run writes
      the Dockerfile. */
  function CreateDockerfileForFunction(env: Env, im: ImageManager, dest: string, file: string): (r: Run<()>)
    ensures r.value.Ok? <==>
      env.files(JarLocation(env.config, env.files, file)).Some? &&
      env.files(JarLocation(env.config, env.files, file)).value != 0 &&
      env.files(env.config.credentialsFile).Some? &&
      im.jdkVersion.Some?
    ensures env.files(JarLocation(env.config, env.files, file)).None? ==>
      r == Run([CleanDirectories], Err(FileNotFound(env.config.fallbackJarFolder + file)))
    ensures r.value.Err? ==> forall e :: e in r.events ==> !e.WriteFile?
    ensures r.value.Ok? ==> r.events == [WriteFile(dest + "Dockerfile",
      Dockerfile(SelectDockerImageFromJavaVersion(im.jdkVersion).value, file, env.serialize(im.manager.definition.functionInputs)))]
  {
    var jar := JarLocation(env.config, env.files, file);
    match env.files(jar)
    case None => Run([CleanDirectories], Err(FileNotFound(jar)))
    case Some(size) =>
      if size == 0 then Run([], Err(FileNotFound(file)))
      else if env.files(env.config.credentialsFile).None? then Run([], Err(FileNotFound(env.config.credentialsFile)))
      else
        match SelectDockerImageFromJavaVersion(im.jdkVersion)
        case Err(e) => Run([], Err(e))
        case Ok(base) =>
          var payload := env.serialize(im.manager.definition.functionInputs);
          Run([WriteFile(dest + "Dockerfile", Dockerfile(base, file, payload))], Ok(()))
  }

  /** `createDockerImage`: chooses the build directory and the image name,
      writes the Dockerfile, checks the Google credentials for GKE, removes
      an image of the same name if the listing mentions it, and builds. */
  function CreateDockerImage(env: Env, h: seq<Event>, im: ImageManager, file: string): (r: Run<ImageManager>)
    ensures ImageNameFor(env.config, im.kind, im.FunctionName()).None? ==> r.events == [] && r.value.Ok?
    ensures r.value.Ok? ==> r.value.value.destinationFolder == Some(BuildDirectory(im.kind, im.FunctionName()))
    ensures r.value.Ok? ==> r.value.value.manager == im.manager && r.value.value.kind == im.kind && r.value.value.jdkVersion == im.jdkVersion
    ensures r.value.Ok? && ImageNameFor(env.config, im.kind, im.FunctionName()).Some? ==>
      var name := ImageNameFor(env.config, im.kind, im.FunctionName()).value;
      var wd := im.manager.workingDirectory;
      r.value.value.imageName == Some(name) &&
      (|r.events| == 2 || |r.events| == 3) &&
      r.events[0].WriteFile? && r.events[0].path == BuildDirectory(im.kind, im.FunctionName()) + "Dockerfile" &&
      r.events[|r.events| - 1] == Shell(wd, "docker build ./ -t " + name) &&
      (|r.events| == 3 <==> Contains(env.daemon(h + r.events[..1]).imagesText, name)) &&
      (|r.events| == 3 ==> r.events[1] == Shell(wd, "docker rmi " + name))
    ensures r.value.Err? ==> forall e :: e in r.events ==> !e.Shell?
    ensures ImageNameFor(env.config, im.kind, im.FunctionName()).Some? ==>
      var written := CreateDockerfileForFunction(env, im, BuildDirectory(im.kind, im.FunctionName()), file);
      (r.value.Ok? <==> written.value.Ok? && (im.kind == Gke ==> env.files(GoogleCredentials).Some?)) &&
      (r.value.Ok? ==> r.events[..1] == written.events) &&
      (written.value.Err? ==> r == Run(written.events, Err(written.value.error))) &&
      (written.value.Ok? && im.kind == Gke && env.files(GoogleCredentials).None? ==>
        r == Run(written.events, Err(FileNotFound(GoogleCredentials))))
  {
    var f := im.FunctionName();
    var withFolder := im.(destinationFolder := Some(BuildDirectory(im.kind, f)));
    match ImageNameFor(env.config, im.kind, f)
    case None => Run([], Ok(withFolder))
    case Some(name) =>
      var named := withFolder.(imageName := Some(name));
      // The Dockerfile depends only on the JDK version and the function
      // inputs, which naming the image leaves as they are.
      var dockerfile := CreateDockerfileForFunction(env, im, BuildDirectory(im.kind, f), file);
      if dockerfile.value.Err? then Run(dockerfile.events, Err(dockerfile.value.error))
      else if im.kind == Gke && env.files(GoogleCredentials).None? then
        Run(dockerfile.events, Err(FileNotFound(GoogleCredentials)))
      else
        var listed := Contains(env.daemon(h + dockerfile.events).imagesText, name);
        var removal := if listed then RemoveDockerImage(named) else [];
        assert dockerfile.events + removal + RunCommandInWorkingDirectory(named.manager, ["docker build ./ -t " + name]) ==
               dockerfile.events + (removal + [Shell(named.manager.workingDirectory, "docker build ./ -t " + name)]);
        Run(dockerfile.events + removal + RunCommandInWorkingDirectory(named.manager, ["docker build ./ -t " + name]), Ok(named))
  }

  /** The command that lists the local images. */
  const ImageListCommand := "docker image ls"

  function ImageListing(env: Env, h: seq<Event>): Shelled {
    ExecuteCommand(env.run, h, LocalFunctionDocker, [ImageListCommand])
  }

  /** The single-command output list: the output when it is not empty. */
  lemma ImageListingOutputs(env: Env, h: seq<Event>)
    ensures var o := CommandOutput(env.run(h, LocalFunctionDocker, ImageListCommand));
      ImageListing(env, h).outputs == if o != [] then [o] else []
    ensures ImageListing(env, h).events == [Shell(LocalFunctionDocker, ImageListCommand)]
  {
    SingleCommand(env.run, h, LocalFunctionDocker, ImageListCommand);
  }

  /** `checkForSuccessfulImagePull` as written: `List.contains` compares the
      untagged image name and the function name with whole entries of the
      output list. */
  function CheckForSuccessfulImagePullAsWritten(env: Env, h: seq<Event>, im: ImageManager): (r: Run<bool>)
    ensures r.events == ImageListing(env, h).events
    ensures im.imageName.None? ==> r.value == Err(NullReference)
    ensures r.value.Ok? ==>
      im.imageName.Some? && Utils.GetImageNameWithoutTagFromDockerhubLink(im.imageName.value).Ok? &&
      var untagged := Utils.GetImageNameWithoutTagFromDockerhubLink(im.imageName.value).value;
      (r.value.value <==> untagged in ImageListing(env, h).outputs && im.FunctionName() in ImageListing(env, h).outputs)
  {
    var listing := ImageListing(env, h);
    match im.imageName
    case None => Run(listing.events, Err(NullReference))
    case Some(name) =>
      match Utils.GetImageNameWithoutTagFromDockerhubLink(name)
      case Err(e) => Run(listing.events, Err(e))
      case Ok(untagged) => Run(listing.events, Ok(untagged in listing.outputs && im.FunctionName() in listing.outputs))
  }

  /** The check as written never succeeds when `docker image ls` exits
      normally: every output entry ends with a line feed, which no function
      name without a line feed equals. */
  lemma ImagePullCheckAsWrittenNeverHolds(env: Env, h: seq<Event>, im: ImageManager)
    requires '\n' !in im.FunctionName()
    requires env.run(h, LocalFunctionDocker, ImageListCommand).exitCode == 0
    ensures CheckForSuccessfulImagePullAsWritten(env, h, im).value != Ok(true)
  {
    ImageListingOutputs(env, h);
    var p := env.run(h, LocalFunctionDocker, ImageListCommand);
    var o := CommandOutput(p);
    if o != [] {
      assert o[|o| - 1] == '\n';
      assert im.FunctionName() != o;
    }
  }

  /** A pull of `u:t` that the listing shows on the line `u t` is rejected
      by the check as written and accepted by the intended check. */
  lemma ImagePullCheckAsWrittenRejectsListedImage(env: Env, h: seq<Event>, im: ImageManager, u: string, t: string)
    requires ':' !in t && '\n' !in t
    requires im.imageName == Some(u + ":" + t) && im.FunctionName() == t
    requires env.run(h, LocalFunctionDocker, ImageListCommand) == Process([u + " " + t], [], 0)
    ensures CheckForSuccessfulImagePullAsWritten(env, h, im).value == Ok(false)
    ensures CheckForSuccessfulImagePull(env, h, im).value == Ok(true)
  {
    Utils.DockerhubLinkFromParts(u, t);
    ImagePullCheckAsWrittenNeverHolds(env, h, im);
    var l := u + " " + t;
    assert u <= l;
    ContainsAt(l, u, 0);
    assert t <= l[|u| + 1..];
    ContainsAt(l, t, |u| + 1);
    ImagePullCheckSeesListedImage(env, h, im, 0);
  }

  /** Whether some entry of an output list contains `u`. */
  predicate Mentions(outputs: seq<string>, u: string) {
    exists i :: 0 <= i < |outputs| && Contains(outputs[i], u)
  }

  /** `checkForSuccessfulImagePull` as evidently intended: the listing
      mentions both the untagged image name and the function name. */
  function CheckForSuccessfulImagePull(env: Env, h: seq<Event>, im: ImageManager): (r: Run<bool>)
    ensures r.events == ImageListing(env, h).events
    ensures im.imageName.None? ==> r.value == Err(NullReference)
    ensures r.value.Ok? ==>
      im.imageName.Some? && Utils.GetImageNameWithoutTagFromDockerhubLink(im.imageName.value).Ok? &&
      var untagged := Utils.GetImageNameWithoutTagFromDockerhubLink(im.imageName.value).value;
      (r.value.value <==> Mentions(ImageListing(env, h).outputs, untagged) && Mentions(ImageListing(env, h).outputs, im.FunctionName()))
  {
    var listing := ImageListing(env, h);
    match im.imageName
    case None => Run(listing.events, Err(NullReference))
    case Some(name) =>
      match Utils.GetImageNameWithoutTagFromDockerhubLink(name)
      case Err(e) => Run(listing.events, Err(e))
      case Ok(untagged) =>
        Run(listing.events, Ok(Mentions(listing.outputs, untagged) && Mentions(listing.outputs, im.FunctionName())))
  }

  /** The intended check succeeds as soon as one listed line names the
      repository and the tag of the pulled image. */
  lemma ImagePullCheckSeesListedImage(env: Env, h: seq<Event>, im: ImageManager, line: nat)
    requires im.imageName.Some? && ':' in im.imageName.value
    requires im.FunctionName() == Utils.GetFunctionNameFromDockerhubLink(im.imageName.value)
    requires env.run(h, LocalFunctionDocker, ImageListCommand).exitCode == 0
    requires line < |env.run(h, LocalFunctionDocker, ImageListCommand).stdout|
    requires var l := env.run(h, LocalFunctionDocker, ImageListCommand).stdout[line];
      Contains(l, Utils.GetImageNameWithoutTagFromDockerhubLink(im.imageName.value).value) &&
      Contains(l, im.FunctionName())
    ensures CheckForSuccessfulImagePull(env, h, im).value == Ok(true)
  {
    var p := env.run(h, LocalFunctionDocker, ImageListCommand);
    var o := CommandOutput(p);
    var untagged := Utils.GetImageNameWithoutTagFromDockerhubLink(im.imageName.value).value;
    assert o == Unlines(p.stdout) && o != [];
    ContainsInUnlines(p.stdout, line, untagged);
    ContainsInUnlines(p.stdout, line, im.FunctionName());
    ImageListingOutputs(env, h);
    assert ImageListing(env, h).outputs == [o];
    assert Mentions([o], untagged) && Mentions([o], im.FunctionName()) by {
      assert [o][0] == o;
    }
  }

  /** The Docker Hub login with the configured user and token. */
  function LoginCommand(c: Config): string {
    "docker login -u " + c.dockerUser + " -p " + c.dockerAccessToken
  }

  /** `pushDockerImageToHub`: log in, then push the Docker Hub name of the
      function. */
  function PushDockerImageToHub(c: Config, im: ImageManager): (r: seq<Event>)
    ensures |r| == 2
    ensures r[0] == Shell(im.manager.workingDirectory, LoginCommand(c))
    ensures r[1] == Shell(im.manager.workingDirectory, "docker push " + DockerHubImageName(c, im.FunctionName()))
  {
    RunCommandInWorkingDirectory(im.manager, [LoginCommand(c), "docker push " + DockerHubImageName(c, im.FunctionName())])
  }

  /** `pullDockerImageFromHub`: log in, then pull the current image name. */
  function PullDockerImageFromHub(c: Config, im: ImageManager): (r: seq<Event>)
    ensures |r| == 2
    ensures r[0] == Shell(im.manager.workingDirectory, LoginCommand(c))
    ensures r[1] == Shell(im.manager.workingDirectory, "docker image pull " + JavaText(im.imageName))
  {
    RunCommandInWorkingDirectory(im.manager, [LoginCommand(c), "docker image pull " + JavaText(im.imageName)])
  }

  /** `removeDockerImage`: one `docker rmi` of the current image name. */
  function RemoveDockerImage(im: ImageManager): (r: seq<Event>)
    ensures r == [Shell(im.manager.workingDirectory, "docker rmi " + JavaText(im.imageName))]
  {
    RunCommandInWorkingDirectory(im.manager, ["docker rmi " + JavaText(im.imageName)])
  }
}
