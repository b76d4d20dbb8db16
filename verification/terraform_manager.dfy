/** `jContainer.management.TerraformAwsManager`, with the suffix of
    `AbstractTerraformManager`: renders the ECS descriptor and runs the
    Terraform apply and destroy sequences in the function's Terraform
    container. */
module TerraformManagers {
  import opened Wrappers
  import opened Text
  import opened Constants
  import opened World
  import opened FunctionDefinitions
  import opened Managers
  import opened TerraformContainers
  import opened CloudWatch

  /** The function it works for, its working directory, and the image the
      descriptor deploys. */
  datatype TerraformManager = TerraformManager(manager: Manager, dockerImageName: string)
  {
    function FunctionName(): string {
      manager.definition.functionName
    }
  }

  /** The image name starts as the function's Docker Hub name. */
  function NewTerraformManager(c: Config, d: FunctionDefinition): (t: TerraformManager)
    ensures t.manager == NewManager(d)
    ensures t.dockerImageName == DockerHubImageName(c, d.functionName)
  {
    TerraformManager(NewManager(d), DockerHubImageName(c, d.functionName))
  }

  /** `setDockerImageName` replaces the image and nothing else. */
  function SetDockerImageName(t: TerraformManager, name: string): (r: TerraformManager)
    ensures r.dockerImageName == name && r.manager == t.manager
  {
    t.(dockerImageName := name)
  }

  /** `getUniqueSuffix` of `AbstractTerraformManager`: `_f_user`, lower-cased. */
  function UniqueSuffix(c: Config, f: string): string {
    "_" + Lower(f) + "_" + Lower(c.localUser)
  }

  /** `getUniqueSuffix` as `TerraformAwsManager` writes it: not lower-cased. */
  function UniqueSuffixAsWritten(c: Config, f: string): string {
    "_" + f + "_" + c.localUser
  }

  /** The named fields of the descriptor for a suffix, a function and an
      image. */
  function DescriptorWithSuffix(suffix: string, f: string, image: string): Descriptor {
    Descriptor(
      LogGroupName + suffix,
      "ecs-terraform-cluster" + suffix,
      "terraform_cluster" + suffix,
      f + "_definition",
      f,
      image,
      LogGroupPrefix,
      "terraform_task" + suffix,
      "terraform_service" + suffix)
  }

  /** The descriptor `createAWSTerraformScript` renders, with the suffix as
      written: every resource name and the log group carry the unlowered
      suffix, and it deploys the current image. */
  function AwsDescriptorAsWritten(c: Config, t: TerraformManager): (d: Descriptor)
    ensures var s := UniqueSuffixAsWritten(c, t.FunctionName());
      d.logGroupName == LogGroupName + s &&
      d.clusterName == "ecs-terraform-cluster" + s && d.clusterResource == "terraform_cluster" + s &&
      d.taskResource == "terraform_task" + s && d.serviceName == "terraform_service" + s
    ensures d.functionName == t.FunctionName() && d.family == t.FunctionName() + "_definition"
    ensures d.dockerImage == t.dockerImageName && d.logStreamPrefix == LogGroupPrefix
  {
    DescriptorWithSuffix(UniqueSuffixAsWritten(c, t.FunctionName()), t.FunctionName(), t.dockerImageName)
  }

  /** As written, the descriptor's log group is the group CloudWatch is
      queried for exactly when the local user is lower case (the invokers
      lower-case the function name). A user `Bob` makes the ECS task log to
      a group the result is never looked for in. */
  lemma LogGroupMatchesOnlyForLowerCaseUser(c: Config, t: TerraformManager)
    requires IsLowerCase(t.FunctionName())
    ensures AwsDescriptorAsWritten(c, t).logGroupName == CloudWatchLogGroup(c, t.FunctionName())
        <==> IsLowerCase(c.localUser)
  {
    var f := t.FunctionName();
    var u := c.localUser;
    LowerProperties(f);
    LowerProperties(u);
    var head := LogGroupName + "_" + f + "_";
    assert AwsDescriptorAsWritten(c, t).logGroupName == head + u;
    assert CloudWatchLogGroup(c, f) == head + Lower(u);
    if head + u == head + Lower(u) {
      assert u == (head + u)[|head|..];
      assert Lower(u) == (head + Lower(u))[|head|..];
    }
  }

  /** The descriptor as evidently intended, with the lower-cased suffix of
      `AbstractTerraformManager`: every resource name carries the suffix,
      the task logs to the group CloudWatch is queried for, and it deploys
      the current image. */
  function AwsDescriptor(c: Config, t: TerraformManager): (d: Descriptor)
    ensures d.logGroupName == CloudWatchLogGroup(c, t.FunctionName())
    ensures var s := UniqueSuffix(c, t.FunctionName());
      d.clusterName == "ecs-terraform-cluster" + s && d.clusterResource == "terraform_cluster" + s &&
      d.taskResource == "terraform_task" + s && d.serviceName == "terraform_service" + s
    ensures d.functionName == t.FunctionName() && d.family == t.FunctionName() + "_definition"
    ensures d.dockerImage == t.dockerImageName
  {
    var s := UniqueSuffix(c, t.FunctionName());
    assert LogGroupName + s == CloudWatchLogGroup(c, t.FunctionName());
    DescriptorWithSuffix(s, t.FunctionName(), t.dockerImageName)
  }

  /** The task's log streams are named `ecs/f/...`, so the stream prefix
      CloudWatch is queried with selects them. */
  lemma DescriptorStreamsMatchQuery(c: Config, t: TerraformManager)
    ensures LogStreamPrefix(t.FunctionName())
         == AwsDescriptorAsWritten(c, t).logStreamPrefix + "/" + AwsDescriptorAsWritten(c, t).functionName
    ensures LogStreamPrefix(t.FunctionName())
         == AwsDescriptor(c, t).logStreamPrefix + "/" + AwsDescriptor(c, t).functionName
  {
  }

  /** Where the descriptor is written: `<workingDirectory><f>.tf`. */
  function TerraformScriptPath(t: TerraformManager): string {
    t.manager.workingDirectory + t.FunctionName() + ".tf"
  }

  /** `createAWSTerraformScript`, rendering the descriptor as written. */
  function CreateAwsTerraformScript(c: Config, t: TerraformManager): Event {
    WriteDescriptor(TerraformScriptPath(t), AwsDescriptorAsWritten(c, t))
  }

  /** A fresh manager writes the descriptor into the function's script
      folder, the folder the Terraform image copies in. */
  lemma DescriptorInScriptFolder(c: Config, d: FunctionDefinition)
    ensures var t := NewTerraformManager(c, d);
      TerraformScriptPath(t) == ScriptFolder + d.functionName + "/" + d.functionName + ".tf"
  {
  }

  /** `execTerraformCommand`: one container command per argument, in order. */
  function ExecTerraformCommand(f: string, commands: seq<string>): (r: seq<Event>)
    ensures |r| == |commands|
    ensures forall i :: 0 <= i < |commands| ==> r[i] == SendCommandToContainer(f, commands[i])
  {
    if |commands| == 0 then []
    else [SendCommandToContainer(f, commands[0])] + ExecTerraformCommand(f, commands[1..])
  }

  /** Sending two batches is sending their concatenation. */
  lemma {:induction false} ExecTerraformCommandAppend(f: string, a: seq<string>, b: seq<string>)
    ensures ExecTerraformCommand(f, a + b) == ExecTerraformCommand(f, a) + ExecTerraformCommand(f, b)
  {
    var left := ExecTerraformCommand(f, a + b);
    var right := ExecTerraformCommand(f, a) + ExecTerraformCommand(f, b);
    assert |left| == |right|;
    forall i | 0 <= i < |left|
      ensures left[i] == right[i]
    {
      if i < |a| {
        assert (a + b)[i] == a[i];
      } else {
        assert (a + b)[i] == b[i - |a|];
      }
    }
  }

  const ApplyCommands: seq<string> := ["terraform init", "terraform refresh", "terraform apply -auto-approve"]
  const DestroyCommands: seq<string> := ["terraform plan -destroy -out=tfplan", "terraform apply \"tfplan\""]

  /** `runTerraformScript`: render the descriptor, start the Terraform
      container, then init, refresh and apply. */
  function RunTerraformScript(env: Env, h: seq<Event>, t: TerraformManager): (r: seq<Event>)
    ensures |r| >= 5
    ensures r[0] == CreateAwsTerraformScript(env.config, t)
    ensures r[1..|r| - 3] == StartTerraformContainer(env, h + [r[0]], t.FunctionName())
    ensures r[|r| - 3..] == ExecTerraformCommand(t.FunctionName(), ApplyCommands)
  {
    var script := CreateAwsTerraformScript(env.config, t);
    var container := StartTerraformContainer(env, h + [script], t.FunctionName());
    var apply := ExecTerraformCommand(t.FunctionName(), ApplyCommands);
    var r := [script] + container + apply;
    assert r[1..|r| - 3] == container;
    assert r[|r| - 3..] == apply;
    r
  }

  /** `removeTerraformCreatedResources`: plan the destruction, then apply
      that plan. */
  function RemoveTerraformCreatedResources(t: TerraformManager): (r: seq<Event>)
    ensures |r| == 2
    ensures r == ExecTerraformCommand(t.FunctionName(), DestroyCommands)
  {
    ExecTerraformCommand(t.FunctionName(), DestroyCommands)
  }

  /** Apply and destroy reach the same container: every Terraform command
      of both sequences is a `docker exec` into the function's container. */
  lemma ApplyAndDestroyShareContainer(env: Env, h: seq<Event>, t: TerraformManager)
    ensures var r := RunTerraformScript(env, h, t);
      var prefix := "docker exec " + TerraformContainerName(t.FunctionName()) + " ";
      forall e :: e in r[|r| - 3..] + RemoveTerraformCreatedResources(t) ==>
        e.Shell? && e.dir == LocalTerraformDocker && prefix <= e.command
  {
  }

  /** `getTerraformOutput`: print the outputs, then write them to
      `<f>_output.json`. */
  function GetTerraformOutput(t: TerraformManager): (r: seq<Event>)
    ensures |r| == 2
    ensures r[0] == SendCommandToContainer(t.FunctionName(), "terraform output -json")
    ensures r[1] == SendCommandToContainer(t.FunctionName(), "terraform output -json > " + t.FunctionName() + "_output.json")
  {
    ExecTerraformCommand(t.FunctionName(), ["terraform output -json", "terraform output -json > " + t.FunctionName() + "_output.json"])
  }

  /** `removeLocalCreatedTerraformResources`. */
  function RemoveLocalCreatedTerraformResources(env: Env, h: seq<Event>, t: TerraformManager): (r: Checked)
    ensures r == RemoveTerraformDockerResources(env, h, t.FunctionName())
    ensures |r.events| == 3
  {
    RemoveTerraformDockerResources(env, h, t.FunctionName())
  }
}
