/** `jContainer.management.DockerContainerTerraformManager`: the local
    container that runs Terraform for one function. */
module TerraformContainers {
  import opened Wrappers
  import opened Text
  import opened Constants
  import opened World
  import opened Terminal

  /** The image every Terraform container runs. */
  const TerraformImageName := "local-terraform"

  /** `getContainerName`: `local-terraform_f`. */
  function TerraformContainerName(f: string): string {
    TerraformImageName + "_" + f
  }

  /** Distinct functions get distinct Terraform containers. */
  lemma TerraformContainerNameInjective(f: string, g: string)
    requires TerraformContainerName(f) == TerraformContainerName(g)
    ensures f == g
  {
    assert f == TerraformContainerName(f)[|TerraformImageName| + 1..];
    assert g == TerraformContainerName(g)[|TerraformImageName| + 1..];
  }

  /** The Terraform release the image installs. */
  const TerraformZip := "terraform_0.14.5_linux_amd64.zip"
  const TerraformRelease := "https://releases.hashicorp.com/" + "terraform/0.14.5/"

  /** The fixed lines of the Terraform image's Dockerfile: an Ubuntu base
      with Terraform 0.14.5 installed. */
  const TerraformPreamble: seq<string> := [
    "FROM ubuntu:21.10",
    "WORKDIR /",
    "RUN apt update -y",
    "RUN apt upgrade -y ",
    "RUN apt install sudo -y ",
    "RUN sudo apt install -y \\",
    "\t\twget \\",
    "\t\tunzip",
    "RUN wget " + TerraformRelease + TerraformZip,
    "RUN unzip " + TerraformZip,
    "RUN sudo mv terraform /usr/local/bin/"]

  /** The preamble, then the line adding the function's folder. */
  function TerraformDockerfileLines(f: string): seq<string> {
    TerraformPreamble + ["ADD ./" + f + " ./"]
  }

  function TerraformDockerfile(f: string): string {
    Unlines(TerraformDockerfileLines(f))
  }

  lemma ReleaseSingleLine()
    ensures '\n' !in TerraformZip && '\n' !in TerraformRelease
  {
    assert '\n' !in "https://releases.hashicorp.com/";
  }

  lemma PreambleFirstSingleLines()
    ensures '\n' !in TerraformPreamble[0] && '\n' !in TerraformPreamble[1] && '\n' !in TerraformPreamble[2]
  {
    var p := TerraformPreamble;
    assert '\n' !in p[0] && '\n' !in p[1] && '\n' !in p[2];
  }

  lemma PreambleInstallSingleLines()
    ensures '\n' !in TerraformPreamble[3] && '\n' !in TerraformPreamble[4]
  {
    var p := TerraformPreamble;
    assert '\n' !in p[3] && '\n' !in p[4];
  }

  lemma PreambleHeadSingleLines()
    ensures |TerraformPreamble| == 11
    ensures forall i :: 0 <= i < 6 ==> '\n' !in TerraformPreamble[i]
  {
    PreambleFirstSingleLines();
    PreambleInstallSingleLines();
    var p := TerraformPreamble;
    assert '\n' !in p[5];
  }

  lemma PreambleTailSingleLines()
    ensures |TerraformPreamble| == 11
    ensures forall i :: 6 <= i < 11 ==> '\n' !in TerraformPreamble[i]
  {
    ReleaseSingleLine();
    var p := TerraformPreamble;
    assert '\n' !in p[6] && '\n' !in p[7];
    assert '\n' !in p[8] && '\n' !in p[9] && '\n' !in p[10];
  }

  lemma PreambleSingleLines()
    ensures |TerraformPreamble| == 11
    ensures forall i :: 0 <= i < |TerraformPreamble| ==> '\n' !in TerraformPreamble[i]
  {
    PreambleHeadSingleLines();
    PreambleTailSingleLines();
  }

  /** The Dockerfile has twelve lines, ends with a line feed, and its last
      line adds the function's folder. */
  lemma TerraformDockerfileAddsFunctionFolder(f: string)
    requires '\n' !in f
    ensures var lines := Split(TerraformDockerfile(f), '\n');
      |lines| == 13 && lines[12] == [] && lines[11] == "ADD ./" + f + " ./" && lines[0] == "FROM ubuntu:21.10"
  {
    var lines := TerraformDockerfileLines(f);
    PreambleSingleLines();
    assert '\n' !in "ADD ./" + f + " ./";
    assert forall i :: 0 <= i < |lines| ==> '\n' !in lines[i] by {
      forall i | 0 <= i < |lines|
        ensures '\n' !in lines[i]
      {
        if i < 11 { assert lines[i] == TerraformPreamble[i]; }
      }
    }
    UnlinesSplit(lines);
  }

  /** Whether some repository tag mentions the Terraform image. */
  predicate TerraformImageListed(tags: seq<string>) {
    exists i :: 0 <= i < |tags| && Contains(tags[i], TerraformImageName)
  }

  /** `createLocalTerraformImage`: writes the Dockerfile, then builds the
      image unless a repository tag already mentions it. */
  function CreateLocalTerraformImage(env: Env, h: seq<Event>, f: string): (r: seq<Event>)
    ensures |r| == 1 || |r| == 2
    ensures r[0] == WriteFile(LocalTerraformDocker + "Dockerfile", TerraformDockerfile(f))
    ensures |r| == 2 <==> !TerraformImageListed(env.daemon(h + r[..1]).imageTags)
    ensures |r| == 2 ==> r[1] == Shell(LocalTerraformDocker, "docker build . -t " + TerraformImageName)
  {
    var write := WriteFile(LocalTerraformDocker + "Dockerfile", TerraformDockerfile(f));
    assert [write][..1] == [write];
    if TerraformImageListed(env.daemon(h + [write]).imageTags) then [write]
    else
      var build := ExecuteCommand(env.run, h + [write], LocalTerraformDocker, ["docker build . -t " + TerraformImageName]);
      assert ([write] + build.events)[..1] == [write];
      [write] + build.events
  }

  /** The command that starts the function's Terraform container. */
  function TerraformRunCommand(f: string): string {
    "docker run -d -i --name " + TerraformContainerName(f) + " " + TerraformImageName
  }

  /** Whether some listed container runs the Terraform image. */
  predicate TerraformContainerRunning(containers: seq<ContainerInfo>) {
    exists i :: 0 <= i < |containers| && containers[i].image == TerraformImageName
  }

  /** `startTerraformContainer`: prepares the image first, then runs the
      container unless one already runs the Terraform image. */
  function StartTerraformContainer(env: Env, h: seq<Event>, f: string): (r: seq<Event>)
    ensures CreateLocalTerraformImage(env, h, f) <= r
    ensures var image := CreateLocalTerraformImage(env, h, f);
      |r| == |image| || (|r| == |image| + 1 && r[|image|] == Shell(LocalTerraformDocker, TerraformRunCommand(f)))
    ensures var image := CreateLocalTerraformImage(env, h, f);
      |r| == |image| + 1 <==> !TerraformContainerRunning(env.daemon(h + image).containers)
  {
    var image := CreateLocalTerraformImage(env, h, f);
    if TerraformContainerRunning(env.daemon(h + image).containers) then image
    else image + ExecuteCommand(env.run, h + image, LocalTerraformDocker, [TerraformRunCommand(f)]).events
  }

  /** `sendCommandToContainer`: `docker exec` into the function's container. */
  function SendCommandToContainer(f: string, command: string): Event {
    Shell(LocalTerraformDocker, "docker exec " + TerraformContainerName(f) + " " + command)
  }

  /** Every `docker exec` addresses the container `startTerraformContainer`
      names, and the command sent can be read back from the event. */
  lemma ExecTargetsStartedContainer(f: string, command: string)
    ensures var n := TerraformContainerName(f);
      var run := TerraformRunCommand(f);
      var exec := SendCommandToContainer(f, command);
      exec.dir == LocalTerraformDocker &&
      run[|"docker run -d -i --name "|..|"docker run -d -i --name "| + |n|] == n &&
      exec.command[|"docker exec "|..|"docker exec "| + |n|] == n &&
      exec.command[|"docker exec "| + |n| + 1..] == command
  {
  }

  /** `removeTerraformDockerResources`: stop and remove the container, then
      remove the image; successful iff both steps report some output. */
  function RemoveTerraformDockerResources(env: Env, h: seq<Event>, f: string): (r: Checked)
    ensures var stop := "docker stop " + TerraformContainerName(f);
      var rm := "docker rm -f " + TerraformContainerName(f);
      var rmi := "docker rmi " + TerraformImageName;
      r.events == [Shell(LocalTerraformDocker, stop), Shell(LocalTerraformDocker, rm), Shell(LocalTerraformDocker, rmi)] &&
      (r.ok <==>
        (CommandOutput(env.run(h, LocalTerraformDocker, stop)) != [] ||
         CommandOutput(env.run(h + [Shell(LocalTerraformDocker, stop)], LocalTerraformDocker, rm)) != []) &&
        CommandOutput(env.run(h + r.events[..2], LocalTerraformDocker, rmi)) != [])
  {
    var stop := "docker stop " + TerraformContainerName(f);
    var rm := "docker rm -f " + TerraformContainerName(f);
    var rmi := "docker rmi " + TerraformImageName;
    var container := ExecuteCommand(env.run, h, LocalTerraformDocker, [stop, rm]);
    var image := ExecuteCommand(env.run, h + container.events, LocalTerraformDocker, [rmi]);
    ContainerRemovalReports(env.run, h, stop, rm);
    SingleCommand(env.run, h + container.events, LocalTerraformDocker, rmi);
    assert (container.events + image.events)[..2] == container.events;
    Checked(container.events + image.events, |container.outputs| > 0 && |image.outputs| > 0)
  }

  /** The two container commands report something iff one of them has
      output. */
  lemma ContainerRemovalReports(run: (seq<Event>, string, string) -> Process, h: seq<Event>, stop: string, rm: string)
    ensures |ExecuteCommand(run, h, LocalTerraformDocker, [stop, rm]).outputs| > 0 <==>
      CommandOutput(run(h, LocalTerraformDocker, stop)) != [] ||
      CommandOutput(run(h + [Shell(LocalTerraformDocker, stop)], LocalTerraformDocker, rm)) != []
    ensures ExecuteCommand(run, h, LocalTerraformDocker, [stop, rm]).events ==
      [Shell(LocalTerraformDocker, stop), Shell(LocalTerraformDocker, rm)]
  {
    TwoCommands(run, h, LocalTerraformDocker, stop, rm);
  }
}
