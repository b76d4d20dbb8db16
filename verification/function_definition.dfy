/** `jContainer.helper.FunctionDefinition`: the name, inputs, JDK version,
    JAR file name and outputs of one function. */
module FunctionDefinitions {
  import opened Wrappers
  import opened World

  datatype FunctionDefinition = FunctionDefinition(
    functionName: string,
    functionInputs: Inputs,
    javaVersion: Option<string>,
    jarFileName: string,
    functionOutputs: Option<Json>)
  {
    /** The JAR file name is derived from the function name. */
    predicate Valid() {
      jarFileName == functionName + ".jar"
    }
  }

  /** The two-argument constructor, used for Docker images: no JDK version. */
  function ForImage(name: string, inputs: Inputs): (d: FunctionDefinition)
    ensures d.Valid()
    ensures d.functionName == name && d.functionInputs == inputs
    ensures d.javaVersion == None && d.functionOutputs == None
  {
    FunctionDefinition(name, inputs, None, name + ".jar", None)
  }

  /** The three-argument constructor, used for JAR files. */
  function ForJar(name: string, inputs: Inputs, version: string): (d: FunctionDefinition)
    ensures d.Valid()
    ensures d.functionName == name && d.functionInputs == inputs
    ensures d.javaVersion == Some(version) && d.functionOutputs == None
  {
    FunctionDefinition(name, inputs, Some(version), name + ".jar", None)
  }

  /** `setFunctionOutputs`: replaces the outputs and nothing else. */
  function SetFunctionOutputs(d: FunctionDefinition, outputs: Option<Json>): (r: FunctionDefinition)
    ensures r.functionOutputs == outputs
    ensures r.functionName == d.functionName && r.functionInputs == d.functionInputs
    ensures r.javaVersion == d.javaVersion && r.jarFileName == d.jarFileName
    ensures d.Valid() ==> r.Valid()
  {
    d.(functionOutputs := outputs)
  }

  /** The setter is unguarded: the last write wins. */
  lemma LastOutputsWin(d: FunctionDefinition, a: Option<Json>, b: Option<Json>)
    ensures SetFunctionOutputs(SetFunctionOutputs(d, a), b) == SetFunctionOutputs(d, b)
  {
  }

  /** The function name is the JAR file name without its `.jar` ending. */
  lemma JarFileNameNamesFunction(d: FunctionDefinition)
    requires d.Valid()
    ensures |d.jarFileName| == |d.functionName| + 4
    ensures d.jarFileName[..|d.functionName|] == d.functionName
    ensures d.jarFileName[|d.functionName|..] == ".jar"
  {
  }
}
