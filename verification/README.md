# jContainer: a Dafny model of the single-invocation container pipeline

jContainer runs one serverless function in a container. The function is
either a JAR (`name:jdkVersion`) or a Docker image link. It runs on one of:

- the local Docker engine;
- AWS ECS, deployed with Terraform from a local Terraform container and read
  back from CloudWatch Logs.

This project models that pipeline as pure functions over a trace of events.
An event is one of:

- a shell command in a working directory;
- a written file or Terraform descriptor;
- a CloudWatch query;
- the local file cleaner.

The outside world is a value, `World.Env`. It holds:

- the shell runner, which maps the history, directory and command to stdout,
  stderr and exit code;
- the Docker daemon's listings after a history;
- file sizes;
- the CloudWatch log store, as successive poll answers;
- the JSON parser and serialiser;
- the two `Utils` helpers the invokers call but whose definitions are not
  part of this model;
- whether the invoker's cleaner is assigned.

Given an environment, every operation is deterministic. Each operation
returns:

- the events it issued;
- its result, or the Java exception it throws, as an `Error`.

The modules follow the Java packages:

| module | models |
|---|---|
| `Wrappers`, `Text` | results, options, and the Java string operations used (`contains`, `indexOf`, `lastIndexOf`, `substring`, `toLowerCase` on ASCII, `replace`, `trim`, `String.join`, line splitting) |
| `Constants`, `World` | the fixed configuration values, the credentials as a `Config`, and the environment |
| `Utils` | request and link parsing, link classification, output normalisation |
| `Terminal` | `TerminalManager`: output aggregation, stdout/stderr choice, exit marker, masking of the echoed command |
| `FunctionDefinitions`, `Managers` | `FunctionDefinition` and `AbstractManager` |
| `ImageManagers` | `DockerImageManager` |
| `LocalExecutors` | `LocalDockerContainerExecutor` |
| `TerraformContainers` | `DockerContainerTerraformManager` |
| `CloudWatch` | `CloudWatchLogsManager` |
| `TerraformManagers` | `TerraformAwsManager`, plus the lower-cased suffix of `AbstractTerraformManager` |
| `AwsExecutors` | `AwsContainerExecutor` |
| `Invokers` | `ContainerInvoker.invokeFunction` with the ECS, local and GKE invokers |

Where the code and its documentation disagree, the model follows the code:

- `getContainerOutput` loops while the output list is `null`. `executeCommand`
  never returns `null`, so the loop body runs exactly once. An empty list then
  makes `get(0)` throw (`LocalExecutors.GetContainerOutput`).
- The abstract methods of `ContainerInvoker` (`invokeWithJar`,
  `invokeWithDockerhubImage`, `invokeWithAwsEcrImage`) do not match the
  overrides (`invokeWithJarOnContainer`, `invokeWithDockerhubImageOnContainer`).
  The model routes:
  - JAR links to the JAR override;
  - Docker Hub links to the image override;
  - ECR links on the ECS invoker to the ECS image override, the only one able
    to run an image on ECS.
- The invokers' `cleaner` is never assigned. `Env.cleanerAssigned` decides
  whether `cleanDirectories` throws a `NullPointerException` or runs.
- The code refers to `fallbackJarFolder`, `credentialsFile` and the ECR
  manager's repository link, but the shown configuration does not define them.
  They are fields of `Config`, and the repository link is `None` while the ECR
  manager is unset.
- The ECS JAR path does two odd things, both modelled as written:
  - it builds the image under its ECR name but pushes the Docker Hub name;
  - with no ECR manager it builds nothing, yet still pushes.
- `startContainer` compares each listed container's image with the container
  name. The function's containers run images named `local-function:f`, and
  the container is named `local-function_f`, so the guard never blocks a start
  (`LocalExecutors.OwnImagesNeverBlockStart`).
- `TerraformAwsManager` extends `AbstractManager`, not
  `AbstractTerraformManager`. Its own suffix is therefore not lower-cased (see
  Findings).

Two defects are listed under Findings. The pipelines model the code as
written, and so carry both defects:

- The local Docker Hub path gates the start on the pull check as written.
  That check never succeeds after a normal `docker image ls`, so the path
  ends in a `NullPointerException` (`Invokers.LocalDockerhubInvokeThrows`).
- The ECS paths render the descriptor with the unlowered suffix. For a local
  user with upper case, the task logs to a group that CloudWatch is never
  asked about (`AwsExecutors.ResultQueriedWhereTaskLogs`).

The evidently intended versions are separate members:

- `ImageManagers.CheckForSuccessfulImagePull`;
- `LocalExecutors.ExecuteWithDockerhubIntended`;
- `TerraformManagers.AwsDescriptor`;
- `AwsExecutors.ResultQueriedWhereTaskLogsIntended`.

Each has its intended property proved.

## Model

| member | source | states |
|---|---|---|
| Utils.CheckForLinebreak | src/main/java/jContainer/helper/Utils.java:44-50 | a text without a line feed is unchanged; otherwise no whitespace is left, the result is a subsequence of the input, and every non-whitespace character keeps its count |
| Utils.CheckForLinebreakIdempotent | src/main/java/jContainer/helper/Utils.java:44-50 | normalising twice is normalising once |
| Utils.CheckForSpecialCharacter | src/main/java/jContainer/helper/Utils.java:58-64 | the empty text stays empty; otherwise the result is the subsequence holding exactly the ASCII letters, each with its count |
| Utils.CheckForSpecialCharacterIdempotent | src/main/java/jContainer/helper/Utils.java:58-64 | filtering twice is filtering once |
| Utils.GetFunctionNameFromDockerhubLink | src/main/java/jContainer/helper/Utils.java:72-79 | the tag is the suffix after the last `:` and holds no `:`; a link without `:` is its own tag |
| Utils.GetFunctionNameFromAwsEcrLink | src/main/java/jContainer/helper/Utils.java:87-94 | an ECR link is split exactly like a Docker Hub link |
| Utils.GetImageNameWithoutTagFromDockerhubLink | src/main/java/jContainer/helper/Utils.java:102-109 | the prefix before the last `:`; the empty link stays empty; a non-empty link without `:` throws an index error |
| Utils.DockerhubLinkRoundTrip | src/main/java/jContainer/helper/Utils.java:72-109 | for a link with `:`, untagged name + `:` + tag gives the link back, and the tag holds no `:` |
| Utils.DockerhubLinkFromParts | src/main/java/jContainer/helper/Utils.java:72-109 | joining an image and a tag without `:` and splitting again gives both parts back |
| Utils.ExtractResourceLinkForFunction | src/main/java/jContainer/helper/Utils.java:117-123 | the empty text stays empty; a non-empty text succeeds iff it holds two distinct `_` |
| Utils.ResourceLinkBetweenUnderscores | src/main/java/jContainer/helper/Utils.java:117-123 | for `x_m_y` with no `_` in `x` or `y`, the result is exactly `m` |
| Utils.EcrLinkIsDockerhubShaped | src/main/java/jContainer/helper/Utils.java:129-139 | every ECR link holding `:` is also a Docker Hub link; the two link tests are defined by `Utils.IsAwsEcrRepoLink` and `Utils.IsDockerhubRepoLink` |
| Utils.IsNullOrEmptyMeansBlank | src/main/java/jContainer/helper/Utils.java:147-149 | a set text is null-or-empty (`Utils.IsNullOrEmpty`) iff every character is at most a space, which is what `trim` removes |
| Utils.ExtractJdkVersionFromFunction | src/main/java/jContainer/helper/Utils.java:157-163 | the text after the first `:`; `"8"` for a non-empty request without `:`; empty for the empty request |
| Utils.ExtractFunctionNameFromFunction | src/main/java/jContainer/helper/Utils.java:171-177 | the prefix before the first `:`; a non-empty request without `:` throws an index error |
| Utils.FunctionRequestRoundTrip | src/main/java/jContainer/helper/Utils.java:157-177 | for a request with `:`, name + `:` + version gives the request back |
| Utils.FunctionRequestFromParts | src/main/java/jContainer/helper/Utils.java:157-177 | joining a name without `:` and any version and splitting again gives both back |
| World.GenerateJsonOutput | src/main/java/jContainer/helper/Utils.java:31-36 | a syntax error iff the parser rejects the text, `null` iff it parses to null, the object otherwise |
| Terminal.HandleOutputLines | src/main/java/jContainer/management/TerminalManager.java:123-153 | reading the output of `Terminal.HandleOutput` back line by line gives stdout when stdout has lines, stderr otherwise; the output is empty iff both streams are |
| Terminal.CommandOutput | src/main/java/jContainer/management/TerminalManager.java:95-104 | the exit code is non-zero iff the output ends with the error marker; the output is empty iff both streams are empty and the exit code is zero |
| Terminal.ExecuteCommand | src/main/java/jContainer/management/TerminalManager.java:46-64 | one event per command in order; no command gives exactly `["Error"]`; otherwise the outputs are the non-empty command outputs, in command order, as many as there are non-empty outputs |
| Terminal.ExecuteCommandIsFilter | src/main/java/jContainer/management/TerminalManager.java:46-64 | for at least one command, the reported outputs are exactly the command outputs filtered to the non-empty ones |
| Terminal.TwoCommands | src/main/java/jContainer/management/TerminalManager.java:46-64 | two commands give their two events; each output is reported iff it is not empty, and the second command sees the first one's run |
| Terminal.ExecuteCommandLoop | src/main/java/jContainer/management/TerminalManager.java:46-64 | the loop over the commands issues the same events and keeps the same outputs as `ExecuteCommand` |
| Terminal.ReportedIsFilter | src/main/java/jContainer/management/TerminalManager.java:48-58 | the kept outputs are the command outputs filtered to the non-empty ones |
| Terminal.RawOutputAt | src/main/java/jContainer/management/TerminalManager.java:48-58 | the i-th command runs after exactly the history and the commands before it |
| Terminal.ReportsSomething | src/main/java/jContainer/management/TerminalManager.java:48-58 | some output is reported iff some command produces a non-empty output |
| Terminal.FailedCommandReported | src/main/java/jContainer/management/TerminalManager.java:97-102 | a failing command always leaves a reported output that ends with the error marker, since the non-empty filter of lines 54-55 keeps it |
| Terminal.SensitiveDataRegexAlternatives | src/main/java/jContainer/management/TerminalManager.java:27-37 | the pattern splits at `\|` into exactly the four alternatives, for keys without `\|` |
| Terminal.CommandToPrint | src/main/java/jContainer/management/TerminalManager.java:79-83 | a command that does not match the pattern is echoed unchanged |
| Terminal.CommandToPrintHidesKeys | src/main/java/jContainer/management/TerminalManager.java:79-83 | a single-line command, which the sensitive-data regex of line 51 matches (`Terminal.Sensitive`), never echoes either key, for non-empty keys without `*` and without regex metacharacters |
| Terminal.MultiLineCommandEchoedVerbatim | src/main/java/jContainer/management/TerminalManager.java:79-83 | `matches` (line 51) fails on a command with a line terminator, so such a command is echoed unmasked |
| FunctionDefinitions.ForImage | src/main/java/jContainer/helper/FunctionDefinition.java:22-26 | the JAR name is derived from the name, and neither JDK version nor outputs are set |
| FunctionDefinitions.ForJar | src/main/java/jContainer/helper/FunctionDefinition.java:34-39 | the JAR name is derived from the name, the JDK version is set, and the outputs are unset |
| FunctionDefinitions.SetFunctionOutputs | src/main/java/jContainer/helper/FunctionDefinition.java:57-59 | replaces the outputs and nothing else, and keeps the JAR-name invariant |
| FunctionDefinitions.LastOutputsWin | src/main/java/jContainer/helper/FunctionDefinition.java:57-59 | two writes of the outputs equal the last write |
| FunctionDefinitions.JarFileNameNamesFunction | src/main/java/jContainer/helper/FunctionDefinition.java:61-63 | the JAR name is the function name followed by `.jar`, with the name set at lines 25 and 37 |
| Managers.NewManager | src/main/java/jContainer/management/AbstractManager.java:15-18 | the working directory starts as the function's script folder |
| Managers.SetWorkingDirectory | src/main/java/jContainer/management/AbstractManager.java:64-66 | replaces the directory and keeps the function |
| Managers.DockerHubImageNameSplits | src/main/java/jContainer/management/AbstractManager.java:71-73 | the Docker Hub name splits back into `user/repo` and the function name |
| Managers.RunCommandInWorkingDirectory | src/main/java/jContainer/management/AbstractManager.java:75-77 | every command runs, in order, in the current working directory |
| Managers.CommandsFollowWorkingDirectory | src/main/java/jContainer/management/AbstractManager.java:64-77 | after `setWorkingDirectory` every command runs in the new directory |
| ImageManagers.NewImageManager | src/main/java/jContainer/management/DockerImageManager.java:25-29 | the JDK version comes from the definition; no folder or image name is set yet |
| ImageManagers.SetImageName | src/main/java/jContainer/management/DockerImageManager.java:282-284 | sets the image name and nothing else |
| ImageManagers.SelectDockerImageFromJavaVersion | src/main/java/jContainer/management/DockerImageManager.java:103-112 | `19` and `11` each get their own base image and every other version gets the JDK 8 image; an unset version throws (each direction stated) |
| ImageManagers.DockerfileHasFourLines | src/main/java/jContainer/management/DockerImageManager.java:81-86 | the Dockerfile is exactly `FROM`, `WORKDIR /`, `ADD . ./`, `CMD java -jar file payload`, each ended by a line feed |
| ImageManagers.ImageNameFor | src/main/java/jContainer/management/DockerImageManager.java:162-176 | no image name exactly when on ECS without an ECR manager |
| ImageManagers.ImageNameTaggedWithFunction | src/main/java/jContainer/management/DockerImageManager.java:162-176 | every chosen image name carries the function name as its tag |
| ImageManagers.JarLocation | src/main/java/jContainer/management/DockerImageManager.java:45-49 | the configured JAR path when the file exists there, the fallback folder otherwise |
| ImageManagers.CreateDockerfileForFunction | src/main/java/jContainer/management/DockerImageManager.java:37-96 | succeeds iff the JAR exists and is non-empty, the credentials file exists and the JDK version is set; a missing JAR cleans up and throws; no failure writes the Dockerfile |
| ImageManagers.CreateDockerImage | src/main/java/jContainer/management/DockerImageManager.java:156-190 | nothing issued on ECS without an ECR manager; otherwise it succeeds iff writing the Dockerfile succeeds and, on GKE, the Google credentials file exists; a failed Dockerfile step ends the run with that step's events and exception; on success the first event is that step's Dockerfile in the build folder (`ImageManagers.BuildDirectory`), then `docker rmi` exactly when the listing mentions the name, then `docker build`; a failure issues no command |
| ImageManagers.ImagePullCheckAsWrittenNeverHolds | src/main/java/jContainer/management/DockerImageManager.java:197-206 | the pull check as written never succeeds after a normal `docker image ls` |
| ImageManagers.ImagePullCheckAsWrittenRejectsListedImage | src/main/java/jContainer/management/DockerImageManager.java:197-206 | a listing line `u t` after pulling `u:t` is rejected as written and accepted by the intended check |
| ImageManagers.CheckForSuccessfulImagePullAsWritten | src/main/java/jContainer/management/DockerImageManager.java:197-206 | the check as written: true iff the untagged image name and the function name each equal a whole entry of the output list; an unset image name throws |
| ImageManagers.CheckForSuccessfulImagePull | src/main/java/jContainer/management/DockerImageManager.java:197-206 | the corrected check of the Findings row for these lines, not the code as written: true iff the listing mentions both the untagged image name and the function name; an unset image name throws |
| ImageManagers.ImagePullCheckSeesListedImage | src/main/java/jContainer/management/DockerImageManager.java:197-206 | one listed line naming the repository and the tag is enough for the intended check |
| ImageManagers.PushDockerImageToHub | src/main/java/jContainer/management/DockerImageManager.java:211-216 | logs in, then pushes the function's Docker Hub name |
| ImageManagers.PullDockerImageFromHub | src/main/java/jContainer/management/DockerImageManager.java:232-237 | logs in, then pulls the current image name |
| ImageManagers.RemoveDockerImage | src/main/java/jContainer/management/DockerImageManager.java:253-257 | one `docker rmi` of the current image name |
| LocalExecutors.NewLocalExecutor | src/main/java/jContainer/executor/LocalDockerContainerExecutor.java:41-45 | the container is `local-function_f`, with a local image manager for the same definition |
| LocalExecutors.ContainerNameDiffersFromImageName | src/main/java/jContainer/executor/LocalDockerContainerExecutor.java:43 | the container name never equals a local image name and gives the function back |
| LocalExecutors.GetContainerOutput | src/main/java/jContainer/executor/LocalDockerContainerExecutor.java:95-103 | one `docker logs`; an empty output throws an index error, otherwise it becomes the stored output |
| LocalExecutors.StartContainer | src/main/java/jContainer/executor/LocalDockerContainerExecutor.java:76-90 | `docker run` then `docker logs` iff no listed container runs an image named like the container, otherwise nothing; a started run's result is the captured log, which the `docker logs` output after the run determines: an index error when it is empty, otherwise the stored output |
| LocalExecutors.OwnImagesNeverBlockStart | src/main/java/jContainer/executor/LocalDockerContainerExecutor.java:79 | containers of `local-function:` images never block the start |
| LocalExecutors.ResultFromLocalContainerExecution | src/main/java/jContainer/executor/LocalDockerContainerExecutor.java:110-113 | the result is the JSON parse of `checkForLinebreak` of the stored output, which replaces the stored output; it fails iff the parser rejects that text; an unset output throws |
| LocalExecutors.ResultFromLocalContainerExecutionRepeatable | src/main/java/jContainer/executor/LocalDockerContainerExecutor.java:110-113 | reading the result again gives the same state and result |
| LocalExecutors.StopFunctionContainer | src/main/java/jContainer/executor/LocalDockerContainerExecutor.java:118-120 | one `docker stop` of the container |
| LocalExecutors.AnyLineContains | src/main/java/jContainer/executor/LocalDockerContainerExecutor.java:162-169 | true iff some line contains the text |
| LocalExecutors.ScanForLine | src/main/java/jContainer/executor/LocalDockerContainerExecutor.java:162-169 | the early-return loop finds a line iff one contains the text |
| LocalExecutors.RemoveLocalContainer | src/main/java/jContainer/executor/LocalDockerContainerExecutor.java:159-170 | one `docker rm -f`; success iff its output mentions the container |
| LocalExecutors.RemoveLocalImage | src/main/java/jContainer/executor/LocalDockerContainerExecutor.java:175-186 | one `docker rmi`; success iff its output contains `Deleted` |
| LocalExecutors.RemoveLocalDockerResources | src/main/java/jContainer/executor/LocalDockerContainerExecutor.java:141-154 | always the container removal and then the image removal, whatever the first reports |
| LocalExecutors.ExecuteWithJar | src/main/java/jContainer/executor/LocalDockerContainerExecutor.java:53-57 | a failed build throws its error; otherwise the container start follows the build, and its events and result are the run's; on success the image is `local-function:f`, and the Dockerfile is written and the build runs in the function's local folder |
| LocalExecutors.ExecuteWithDockerhub | src/main/java/jContainer/executor/LocalDockerContainerExecutor.java:62-71 | login, pull and listing (the preparation of lines 125-136) come first; the container starts exactly when the pull check as written succeeds, and its result is the run's; a failed check leaves the executor unstarted, and a throwing check throws |
| LocalExecutors.StartIfPulled | src/main/java/jContainer/executor/LocalDockerContainerExecutor.java:64-70 | a true check adds the start's events and result, a false one nothing, and a throwing one its exception |
| LocalExecutors.DockerhubRunNeverStarts | src/main/java/jContainer/executor/LocalDockerContainerExecutor.java:62-71 | with a function name without line feed and a listing that exits normally, only the three preparation commands are issued and the output stays unset |
| LocalExecutors.ExecuteWithDockerhubIntended | src/main/java/jContainer/executor/LocalDockerContainerExecutor.java:62-71 | the same run with the corrected check of the Findings row for DockerImageManager.java:197-206 |
| TerraformContainers.TerraformContainerNameInjective | src/main/java/jContainer/management/DockerContainerTerraformManager.java:111-113 | distinct functions get distinct Terraform containers |
| TerraformContainers.TerraformDockerfileAddsFunctionFolder | src/main/java/jContainer/management/DockerContainerTerraformManager.java:39-52 | the Dockerfile has twelve lines, starts from `ubuntu:21.10` and ends by adding the function's folder |
| TerraformContainers.CreateLocalTerraformImage | src/main/java/jContainer/management/DockerContainerTerraformManager.java:29-64 | writes the Dockerfile, then builds iff no repository tag mentions the image |
| TerraformContainers.StartTerraformContainer | src/main/java/jContainer/management/DockerContainerTerraformManager.java:71-78 | prepares the image first, then runs the container iff no listed container runs the Terraform image |
| TerraformContainers.ExecTargetsStartedContainer | src/main/java/jContainer/management/DockerContainerTerraformManager.java:103-105 | a `docker exec` addresses the container that `docker run` names at line 75, and the command can be read back from it |
| TerraformContainers.RemoveTerraformDockerResources | src/main/java/jContainer/management/DockerContainerTerraformManager.java:83-96 | `docker stop`, `docker rm -f`, `docker rmi`; success iff the container step and the image step each report output |
| TerraformContainers.ContainerRemovalReports | src/main/java/jContainer/management/DockerContainerTerraformManager.java:84-88 | the container step reports, as the first conjunct of line 95 asks, iff `stop` or `rm` has output |
| CloudWatch.CloudWatchLogGroupLowerCase | src/main/java/jContainer/management/CloudWatchLogsManager.java:33 | the group is the configured name followed by a lower-case suffix, whatever the case of the function and user |
| CloudWatch.NewCloudWatchManager | src/main/java/jContainer/management/CloudWatchLogsManager.java:32-35 | starts with the lower-cased group and no selected event |
| CloudWatch.GetLogEvents | src/main/java/jContainer/management/CloudWatchLogsManager.java:66-81 | one query per poll; success iff some poll is non-empty, and then the first event of the first non-empty poll, after only empty polls |
| CloudWatch.EmptyPollSkipped | src/main/java/jContainer/management/CloudWatchLogsManager.java:75-77 | an empty poll adds one query and leaves the outcome to the polls after it |
| CloudWatch.PollLogEvents | src/main/java/jContainer/management/CloudWatchLogsManager.java:66-81 | the polling loop issues the same queries and selects the same event as `GetLogEvents` |
| CloudWatch.ResultFromLogStreamPrefix | src/main/java/jContainer/management/CloudWatchLogsManager.java:50-60 | a non-empty name polls the function's streams and parses the selected message; an empty name polls nothing and throws while no event is selected |
| CloudWatch.WrapLong | src/main/java/jContainer/management/CloudWatchLogsManager.java:90 | the `long` value congruent to the exact difference; equal to it when in range |
| CloudWatch.ExecutionTimeFromLogEvent | src/main/java/jContainer/management/CloudWatchLogsManager.java:86-92 | ingestion time minus timestamp in `long` arithmetic; throws iff no event is selected |
| TerraformManagers.NewTerraformManager | src/main/java/jContainer/management/TerraformAwsManager.java:12-17 | the image name starts as the function's Docker Hub name |
| TerraformManagers.SetDockerImageName | src/main/java/jContainer/management/TerraformAwsManager.java:205-207 | replaces the image name and nothing else |
| TerraformManagers.LogGroupMatchesOnlyForLowerCaseUser | src/main/java/jContainer/management/TerraformAwsManager.java:197-199 | with the suffix as written (and used for the log group at line 24), the task's log group is the queried group iff the local user is lower case |
| TerraformManagers.AwsDescriptorAsWritten | src/main/java/jContainer/management/TerraformAwsManager.java:22-147 | the descriptor as rendered, which `TerraformManagers.CreateAwsTerraformScript` writes: log group, cluster, task and service carry the unlowered suffix of lines 197-199; family and function are named after the function; the streams use the fixed prefix; the image is the current image name |
| TerraformManagers.AwsDescriptor | src/main/java/jContainer/management/TerraformAwsManager.java:22-147 | the corrected descriptor of the Findings row for TerraformAwsManager.java:197-199, not the code as written: the log group is the queried group, and cluster, task and service carry the lower-cased suffix |
| TerraformManagers.DescriptorStreamsMatchQuery | src/main/java/jContainer/management/TerraformAwsManager.java:40-42 | in the descriptor as written and in the corrected one, the task's stream prefix and function name form the prefix CloudWatch is queried with |
| TerraformManagers.DescriptorInScriptFolder | src/main/java/jContainer/management/TerraformAwsManager.java:146 | a fresh manager writes `f.tf` into the function's script folder |
| TerraformManagers.ExecTerraformCommand | src/main/java/jContainer/management/TerraformAwsManager.java:191-195 | one container command per argument, in order |
| TerraformManagers.ExecTerraformCommandAppend | src/main/java/jContainer/management/TerraformAwsManager.java:191-195 | sending two batches is sending their concatenation |
| TerraformManagers.RunTerraformScript | src/main/java/jContainer/management/TerraformAwsManager.java:152-158 | the descriptor first, then starting the container, then init, refresh and apply |
| TerraformManagers.RemoveTerraformCreatedResources | src/main/java/jContainer/management/TerraformAwsManager.java:163-165 | exactly plan-destroy and then apply of the plan |
| TerraformManagers.ApplyAndDestroyShareContainer | src/main/java/jContainer/management/TerraformAwsManager.java:152-165 | every apply and destroy command is a `docker exec` into the function's Terraform container |
| TerraformManagers.GetTerraformOutput | src/main/java/jContainer/management/TerraformAwsManager.java:179-184 | two output commands, the second writing `f_output.json` |
| TerraformManagers.RemoveLocalCreatedTerraformResources | src/main/java/jContainer/management/TerraformAwsManager.java:172-174 | the Terraform container's three removal commands |
| AwsExecutors.NewAwsExecutor | src/main/java/jContainer/executor/AwsContainerExecutor.java:34-38 | all three managers are built from the same definition |
| AwsExecutors.ResultQueriedWhereTaskLogs | src/main/java/jContainer/executor/AwsContainerExecutor.java:34-38 | for a lower-case function, a fresh executor deploys a task whose streams lie under the queried prefix, and whose log group is the queried group iff the local user is lower case |
| AwsExecutors.ResultQueriedWhereTaskLogsIntended | src/main/java/jContainer/executor/AwsContainerExecutor.java:34-38 | with the corrected descriptor, the task always logs to the group and streams the CloudWatch manager queries |
| AwsExecutors.ExecuteFunctionWithJarInEcs | src/main/java/jContainer/executor/AwsContainerExecutor.java:46-50 | a failed build stops everything; otherwise the trace is exactly the build, then the Docker Hub login and the push of the function's Docker Hub name (not the image just built), then the whole Terraform deployment (descriptor, container start, init, refresh, apply) |
| AwsExecutors.JarDeploymentRunsPushedImage | src/main/java/jContainer/executor/AwsContainerExecutor.java:46-50 | for a fresh executor the pushed image is the image the descriptor later deploys |
| AwsExecutors.ExecuteFunctionWithDockerhubInEcs | src/main/java/jContainer/executor/AwsContainerExecutor.java:58-62 | both managers take the link as image; the trace is exactly the Terraform deployment of the updated manager, whose descriptor deploys the link; no function image is built |
| AwsExecutors.ContainerExecutionTime | src/main/java/jContainer/executor/AwsContainerExecutor.java:69-71 | the CloudWatch manager's execution time of its selected event: defined iff an event is selected, and within `long` range |
| AwsExecutors.ContainerExecutionResult | src/main/java/jContainer/executor/AwsContainerExecutor.java:79-81 | exactly the CloudWatch manager's retrieval for the function: the same queries, all of the executor's log group, the same exception, and on success the executor with the updated CloudWatch manager and its output; the other managers are unchanged |
| AwsExecutors.ExecutionTimeAfterResult | src/main/java/jContainer/executor/AwsContainerExecutor.java:69-81 | after a retrieved result the execution time is defined |
| AwsExecutors.CleanUpAllResources | src/main/java/jContainer/executor/AwsContainerExecutor.java:86-97 | five events plus one when asked to delete the image: the image removal if asked, then the two destroy commands |
| AwsExecutors.CleanUpEndsWithLocalRemoval | src/main/java/jContainer/executor/AwsContainerExecutor.java:86-97 | the clean-up ends with the local Terraform container and image removal, run after the destroy commands |
| AwsExecutors.CleanUpRemovesImageIffAsked | src/main/java/jContainer/executor/AwsContainerExecutor.java:89-93 | the first command is a `docker rmi` iff the image is to be deleted, and the destroy follows |
| AwsExecutors.CleanUpDestroysInDeployingContainer | src/main/java/jContainer/executor/AwsContainerExecutor.java:93 | both destroy commands run in the Terraform container that deployed |
| Invokers.Classify | src/main/java/jContainer/invoker/ContainerInvoker.java:50-77 | first match: ECR on ECS, Docker Hub on local, then the JAR validator, else rejected (each route iff its condition) |
| Invokers.TaggedEcrLinkRunsLocallyAsDockerhub | src/main/java/jContainer/invoker/ContainerInvoker.java:53 | a tagged ECR link on the local invoker takes the Docker Hub route |
| Invokers.RejectionNamesInvoker | src/main/java/jContainer/invoker/ContainerInvoker.java:65-76 | the rejection errors of two invokers are equal iff the invokers are |
| Invokers.JarDefinition | src/main/java/jContainer/invoker/EcsContainerInvoker.java:30-32 | fails iff the lower-cased request is non-empty without `:`; otherwise name + `:` + version is the lower-cased request |
| Invokers.JarRequestParsedLowerCase | src/main/java/jContainer/invoker/LocalContainerInvoker.java:30-32 | `Name:Version` defines function `name` with version `version` |
| Invokers.ImageDefinition | src/main/java/jContainer/invoker/LocalContainerInvoker.java:58-60 | the function is the tag of the lower-cased link, without `:` |
| Invokers.ImageLinkParsedLowerCase | src/main/java/jContainer/invoker/EcsContainerInvoker.java:59-61 | `Repo/Image:Tag` runs the function `tag` |
| Invokers.Conclude | src/main/java/jContainer/invoker/EcsContainerInvoker.java:43-45 | succeeds iff the cleaner is assigned, then returns the outputs after the teardown and the cleaning |
| Invokers.EcsAfterDeployment | src/main/java/jContainer/invoker/EcsContainerInvoker.java:34-45 | a failed deployment or retrieval throws before any teardown; otherwise outputs from the retrieved result, then the teardown |
| Invokers.EcsTeardownShape | src/main/java/jContainer/invoker/EcsContainerInvoker.java:34-74 | on both ECS paths, on success the trace ends with `docker rmi` iff asked (lines 38 and 67), the destroy, the local removals and the cleaning (lines 43 and 72), after the deployment and retrieval of lines 34-36 and 63-65 |
| Invokers.EcsInvokeWithJar | src/main/java/jContainer/invoker/EcsContainerInvoker.java:28-46 | a malformed request issues nothing; otherwise build, push and deploy, then the ECS stages removing the image |
| Invokers.EcsInvokeWithDockerhubImage | src/main/java/jContainer/invoker/EcsContainerInvoker.java:57-75 | the first event deploys exactly the lower-cased link, and the ECS stages keep the image |
| Invokers.LocalAfterRun | src/main/java/jContainer/invoker/LocalContainerInvoker.java:36-44 | a failed run or parse throws before any removal; otherwise outputs first, then the removals |
| Invokers.NoOutputNoTeardown | src/main/java/jContainer/invoker/LocalContainerInvoker.java:36-38 | a container with no output throws before anything is removed |
| Invokers.LocalInvokeWithJar | src/main/java/jContainer/invoker/LocalContainerInvoker.java:27-45 | a malformed request issues nothing; otherwise build and start, then the local stages |
| Invokers.LocalInvokeWithDockerhubImage | src/main/java/jContainer/invoker/LocalContainerInvoker.java:55-74 | the pull is of exactly the lower-cased link, in the function's local folder |
| Invokers.UnstartedRunThrows | src/main/java/jContainer/invoker/LocalContainerInvoker.java:36-44 | a run that started no container makes the local stages throw with exactly the run's events, a `NullPointerException` when the run itself succeeded |
| Invokers.LocalDockerhubInvokeThrows | src/main/java/jContainer/invoker/LocalContainerInvoker.java:55-74 | while `docker image ls` exits normally, the Docker Hub route issues only login, pull and listing and throws; the exception is a `NullPointerException` when the link splits |
| Invokers.InvokeFunction | src/main/java/jContainer/invoker/ContainerInvoker.java:46-80 | a rejected link throws the invoker's message with nothing issued; each other route runs its path; GKE returns an empty object |
| Invokers.ClassifiedByExtractedLink | src/main/java/jContainer/invoker/ContainerInvoker.java:47 | two requests with the same extracted link are invoked alike |

## Left out

- Process execution, stream reading and `System.exit` on I/O errors: the shell is the `Env.run` parameter.
- The Docker client: its listings are the `Env.daemon` parameter.
- File copies, directory creation, `createFile` I/O and `LocalFileCleaner`: only the Dockerfile and descriptor writes and the cleaner call are events.
- `copyCredentials`: its copy is left out, and only a missing credentials file is modelled, as its `FileNotFoundException`.
- The text of the Terraform descriptor beyond its named fields, and the credentials it embeds.
- Gson: parsing and serialising are the `Env.parse` and `Env.serialize` parameters.
- `Thread.sleep`, `Stopwatch` and the logged times, including `getExecutionTime` of the local executor: they are wall-clock values only logged.
- The unbounded CloudWatch retry: a finite sequence of poll answers models it, and answers that run out model a poll that never ends.
- `getLogGroups`: it is never called.
- The ECR manager's SDK calls, `pushDockerImageToAwsEcr` and `pullDockerImageFromAwsEcr`: they are network calls, and only the presence of the ECR repository link is modelled.
- `Utils.extractResourceLink` and `Utils.isValidJarResourceInput`: they are called but not defined in the repository, so they are the `Env` parameters.
- The GKE executor, its Terraform manager and `copyGoogleCredentials`' copy: they are placeholders. Only the GKE invoker's empty object and the missing Google credentials file are modelled.
- `Gateway`, the legacy invokers and `DockerManager`: they are outside this pipeline.
- Text: `toLowerCase` is modelled for ASCII letters only, and `replace` treats the keys literally, as Java does.
- Terminal.CommandToPrint: its contract states the non-sensitive case only. The masking of sensitive commands is stated by `Terminal.CommandToPrintHidesKeys`, which assumes non-empty keys without `*` and without regex metacharacters.
- CloudWatch client errors: the log store always answers. An SDK exception of `filterLogEvents` (CloudWatchLogsManager.java:71), such as the one for a log group that does not exist, is not modelled. The only retrieval failures are exhausted polls and a malformed result. For the first Findings row this means the model lets an unconstrained store answer for the never-created group, whereas the program most likely throws at the first query and exits before `cleanUpAllResources`, leaving the ECS service up.
- Terminal.Sensitive: it reads the keys literally. Java builds them unescaped into the pattern `.*key.*` (TerminalManager.java:27-36) and tests it with `matches` (line 51). A key holding a regex metacharacter is therefore not matched literally there. An example is the secret key `ab+c`, a common shape for base64 AWS keys: `echo ab+c` is echoed unmasked. Regex matching is not modelled, so `Terminal.CommandToPrintHidesKeys` requires keys that are `Terminal.RegexLiteral`.
- Invokers.InvokeFunction: states that a rejected link throws `InvalidResourceLink`, but not the converse, that no execution path throws it.

## Findings

| source | as written | input that shows it | evidently intended | confidence | as-written member | corrected member |
|---|---|---|---|---|---|---|
| src/main/java/jContainer/management/TerraformAwsManager.java:197-199 | the unique suffix `_f_user` is not lower-cased, but CloudWatch queries the lower-cased group (CloudWatchLogsManager.java:33) | local user `Bob`, function `f`: the task logs to `/ecs/terraform_ecs_log_f_Bob`, and the result is looked for in `/ecs/terraform_ecs_log_f_bob` | the lower-cased suffix of AbstractTerraformManager.java:72-74, so the task logs where the result is read | medium; not executed | TerraformManagers.LogGroupMatchesOnlyForLowerCaseUser | TerraformManagers.AwsDescriptor |
| src/main/java/jContainer/management/DockerImageManager.java:197-206 | `List.contains` compares the untagged name and the function name with whole entries of the output list, and the single entry is the full `docker image ls` text ending in a line feed | pulling `u:t` whose listing is the one line `u t`: the check is false, and the container is never started | the listing mentions both the untagged image name and the function name | high; not executed | ImageManagers.ImagePullCheckAsWrittenRejectsListedImage | ImageManagers.CheckForSuccessfulImagePull |
