/** `jContainer.management.AbstractManager`: the function a manager works
    for, its working directory, and the commands it runs there. */
module Managers {
  import opened Constants
  import opened World
  import opened Terminal
  import opened FunctionDefinitions
  import Utils

  datatype Manager = Manager(definition: FunctionDefinition, workingDirectory: string)

  /** The working directory every manager starts with. */
  function DefaultWorkingDirectory(f: string): string {
    ScriptFolder + f + "/"
  }

  function NewManager(d: FunctionDefinition): (m: Manager)
    ensures m.definition == d
    ensures m.workingDirectory == DefaultWorkingDirectory(d.functionName)
  {
    Manager(d, DefaultWorkingDirectory(d.functionName))
  }

  /** `setWorkingDirectory` replaces the directory and keeps the function. */
  function SetWorkingDirectory(m: Manager, dir: string): (r: Manager)
    ensures r.workingDirectory == dir && r.definition == m.definition
  {
    m.(workingDirectory := dir)
  }

  /** `getCreatedImageNameDockerHub`: `dockerUser/dockerRepo:f`. */
  function DockerHubImageName(c: Config, f: string): string {
    HubUserAndRepoName(c) + f
  }

  /** Splitting a Docker Hub image name at its last `:` gives the
      repository and the function back, for a function name without `:`. */
  lemma DockerHubImageNameSplits(c: Config, f: string)
    requires ':' !in f
    ensures Utils.GetFunctionNameFromDockerhubLink(DockerHubImageName(c, f)) == f
    ensures Utils.GetImageNameWithoutTagFromDockerhubLink(DockerHubImageName(c, f)).Ok?
    ensures Utils.GetImageNameWithoutTagFromDockerhubLink(DockerHubImageName(c, f)).value == c.dockerUser + "/" + c.dockerRepo
  {
    assert DockerHubImageName(c, f) == (c.dockerUser + "/" + c.dockerRepo) + ":" + f;
    Utils.DockerhubLinkFromParts(c.dockerUser + "/" + c.dockerRepo, f);
  }

  /** `runCommandInWorkingDirectory`: the commands, in order, in the current
      working directory; their outputs are discarded. */
  function RunCommandInWorkingDirectory(m: Manager, commands: seq<string>): (r: seq<Event>)
    ensures |r| == |commands|
    ensures forall i :: 0 <= i < |commands| ==> r[i] == Shell(m.workingDirectory, commands[i])
  {
    ShellEventsAt(m.workingDirectory, commands);
    ShellEvents(m.workingDirectory, commands)
  }

  /** After `setWorkingDirectory`, every command runs in the new directory. */
  lemma CommandsFollowWorkingDirectory(m: Manager, dir: string, commands: seq<string>)
    ensures forall e :: e in RunCommandInWorkingDirectory(SetWorkingDirectory(m, dir), commands) ==> e.Shell? && e.dir == dir
  {
  }
}
