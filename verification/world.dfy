/** The fixed values of the configuration interface, and the values read
    from the credentials file, which the model takes as parameters. */
module Constants {
  import opened Wrappers

  const Region := "eu-central-1"

  // CloudWatch
  const LogGroupPrefix := "ecs"
  const LogGroupName := "/" + LogGroupPrefix + "/terraform_ecs_log"
  const RetentionTimeDays := 1

  // Paths
  const ResourceFolder := "src/main/resources/"
  const JarFilePath := "./jars/"
  const ScriptFolder := ResourceFolder + "scripts/"
  const TerraformLocalDocker := ResourceFolder + "localTerraform/"
  const GoogleCredentials := "google_cred.json"
  const LocalTerraformDocker := ResourceFolder + "localTerraform/"
  const LocalFunctionDocker := ResourceFolder + "localFunction/"

  // Base images for the function containers
  const OpenJdk19Slim := "openjdk:19-slim"
  const AlpineJavaJdk8 := "anapsix/alpine-java:8u202b08_jdk"
  const EclipseTemurinJdk11 := "eclipse-temurin:11.0.13_8-jre-focal"

  /** The values the credentials file provides, plus the configuration
      entries the code refers to but does not define (the fallback JAR
      folder, the credentials file name and the ECR repository link of the
      ECR manager, `None` while that manager is unset). */
  datatype Config = Config(
    dockerUser: string,
    dockerRepo: string,
    dockerAccessToken: string,
    localUser: string,
    awsAccessKey: string,
    awsSecretKey: string,
    pathToJar: string,
    fallbackJarFolder: string,
    credentialsFile: string,
    ecrRepoLink: Option<string>)

  /** `dockerUser/dockerRepo:`, the prefix of every Docker Hub image name. */
  function HubUserAndRepoName(c: Config): string {
    c.dockerUser + "/" + c.dockerRepo + ":"
  }
}

/** Everything outside the modelled code, as values: the shell, the Docker
    daemon's listings, the file system, the CloudWatch log store, the JSON
    library, and the two `Utils` helpers whose definitions are not part of
    this model. Every observation may depend on the events issued before
    it, so the model is deterministic given the environment. */
module World {
  import opened Wrappers
  import opened Constants

  /** A parsed JSON object, identified by its text. */
  datatype Json = Json(text: string)

  /** What Gson's `fromJson` gives for a text: an object, `null` (for the
      empty text, say), or a syntax error. */
  datatype Parsed = Object(json: Json) | NullObject | Malformed

  /** The function inputs, a map from names to JSON values. */
  type Inputs = map<string, Json>

  /** The outcome of one `bash -c` process: its stdout and stderr lines and
      its exit code. */
  datatype Process = Process(stdout: seq<string>, stderr: seq<string>, exitCode: int)

  /** A listed container: its name and the image it was started from. */
  datatype ContainerInfo = ContainerInfo(name: string, image: string)

  /** What the Docker client lists: the text rendering of the image list,
      the repository tags of all images, and the containers. */
  datatype Listing = Listing(imagesText: string, imageTags: seq<string>, containers: seq<ContainerInfo>)

  /** A CloudWatch log event. */
  datatype LogEvent = LogEvent(message: string, timestamp: int, ingestionTime: int)

  /** The named fields of the rendered Terraform descriptor for ECS. */
  datatype Descriptor = Descriptor(
    logGroupName: string,
    clusterName: string,
    clusterResource: string,
    family: string,
    functionName: string,
    dockerImage: string,
    logStreamPrefix: string,
    taskResource: string,
    serviceName: string)

  /** One externally visible step. */
  datatype Event =
    | Shell(dir: string, command: string)                  // a command run in a working directory
    | WriteFile(path: string, content: string)             // a generated file (Dockerfile)
    | WriteDescriptor(path: string, descriptor: Descriptor) // the generated `.tf` file
    | LogQuery(group: string, streamPrefix: string)        // one CloudWatch filter request
    | CleanDirectories                                     // the local file cleaner runs

  datatype Env = Env(
    config: Config,
    run: (seq<Event>, string, string) -> Process,      // history, directory, command
    daemon: seq<Event> -> Listing,                     // the listings after a history
    files: string -> Option<nat>,                      // size of an existing file
    logStore: (string, string) -> seq<seq<LogEvent>>,  // group, prefix: successive poll answers
    parse: string -> Parsed,                           // JSON parsing
    serialize: Inputs -> string,                       // JSON serialisation
    extractResourceLink: string -> string,             // Utils.extractResourceLink
    isValidJarResourceInput: string -> bool,           // Utils.isValidJarResourceInput
    cleanerAssigned: bool)                             // whether the invoker's cleaner is set

  /** Events together with a result: what a step issued, and what it
      returned or threw. */
  datatype Run<T> = Run(events: seq<Event>, value: Result<T>)

  /** Events together with the output list of `TerminalManager`. */
  datatype Shelled = Shelled(events: seq<Event>, outputs: seq<string>)

  /** Events together with a success flag. */
  datatype Checked = Checked(events: seq<Event>, ok: bool)

  /** `Utils.generateJsonOutput`: a parsed object, `null`, or the syntax
      error Gson throws. */
  function GenerateJsonOutput(parse: string -> Parsed, s: string): (r: Result<Option<Json>>)
    ensures r.Err? <==> parse(s).Malformed?
    ensures r == Ok(None) <==> parse(s).NullObject?
    ensures parse(s).Object? ==> r == Ok(Some(parse(s).json))
  {
    match parse(s)
    case Object(j) => Ok(Some(j))
    case NullObject => Ok(None)
    case Malformed => Err(JsonSyntax)
  }

  /** How Java's string concatenation renders a possibly unset string. */
  function JavaText(s: Option<string>): string {
    match s
    case Some(v) => v
    case None => "null"
  }
}
