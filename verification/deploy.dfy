/**
 The deploy script: describe the service's task definition, transform it
 with a fixed tag, register the result, and point the service at the newly
 registered revision. The three `aws ecs` invocations are abstract: each is a
 function from its arguments to success (with the parsed standard output) or
 failure (with the standard error text).
 */
module Deploy {
  import opened JsonValues
  import opened Errors
  import opened TaskDefinition
  import UpdateTd

  /** The image tag the deploy script writes into every container. */
  const DeployTag: string := "202601151258"

  /**
   Steps 2 and 3 of the script: unwrap the described task definition and
   transform it with the fixed tag. The orchestration below is stated for any
   transform and instantiated with this one.
   */
  function EcsTransform(data: Json): (r: Result<Object>)
    ensures r.Ok? <==> UpdateTd.UpdateTd(data, DeployTag).Ok?
    ensures r.Ok? ==> UpdateTd.UpdateTd(data, DeployTag).value == JObject(r.value)
    ensures r.Err? ==> UpdateTd.UpdateTd(data, DeployTag) == Err(r.error)
  {
    FromEnvelope(data, DeployTag)
  }

  /** The outcome of one `aws` invocation: exit code zero, or not. */
  datatype CallResult = Succeeded(stdout: Json) | Failed(stderr: string)

  /** The three command-line operations, as functions of their arguments. */
  datatype Cli = Cli(
    describe: string -> CallResult,
    register: Json -> CallResult,
    updateService: (string, string, string) -> CallResult)

  /** One `aws ecs` invocation, with the arguments it was given. */
  datatype Call =
    | Describe(taskDefinition: string)
    | Register(definition: Json)
    | UpdateService(cluster: string, service: string, taskDefinition: string)

  /** How `deploy` ends: an early return after a failed call, success, or an exception. */
  datatype Ending =
    | DescribeFailed(stderr: string)
    | RegisterFailed(stderr: string)
    | UpdateFailed(stderr: string)
    | Updated
    | Raised(error: Error)

  /** The calls one `deploy` made, in order, and how it ended. */
  datatype Run = Run(calls: seq<Call>, ending: Ending)

  /**
   `reg_data['taskDefinition']['taskDefinitionArn']`, which the update command
   line needs as a str: `subprocess.run` raises `TypeError` for any other
   argument, before the command is run.
   */
  function RegisteredArn(regData: Json): (r: Result<string>)
    ensures r.Ok? <==> && regData.JObject? && "taskDefinition" in regData.fields
                       && regData.fields["taskDefinition"].JObject?
                       && "taskDefinitionArn" in regData.fields["taskDefinition"].fields
                       && regData.fields["taskDefinition"].fields["taskDefinitionArn"].JString?
    ensures r.Ok? ==> regData.fields["taskDefinition"].fields["taskDefinitionArn"] == JString(r.value)
    ensures Subscript(regData, "taskDefinition", "document").Err? ==>
      r == Err(Subscript(regData, "taskDefinition", "document").error)
    ensures Subscript(regData, "taskDefinition", "document").Ok? ==>
      var td := Subscript(regData, "taskDefinition", "document").value;
      && (Subscript(td, "taskDefinitionArn", "taskDefinition").Err? ==>
            r == Err(Subscript(td, "taskDefinitionArn", "taskDefinition").error))
      && (Subscript(td, "taskDefinitionArn", "taskDefinition").Ok? && !td.fields["taskDefinitionArn"].JString? ==>
            r == Err(NotAString("taskDefinitionArn")))
  {
    var td := Subscript(regData, "taskDefinition", "document");
    if td.Err? then Err(td.error)
    else
      var arn := Subscript(td.value, "taskDefinitionArn", "taskDefinition");
      if arn.Err? then Err(arn.error)
      else if !arn.value.JString? then Err(NotAString("taskDefinitionArn"))
      else Ok(arn.value.s)
  }

  /**
   One `deploy(service)`. Each step is attempted only when the previous one
   succeeded, with what the previous one produced: a failed `aws` call
   returns early, a failed lookup in the transform or in the registration
   output raises, and in both cases nothing further is called.
   */
  function Deploy(service: string, cli: Cli, transform: Json -> Result<Object>): (run: Run)
    ensures 1 <= |run.calls| <= 3 && run.calls[0] == Describe(service)
    // describe failed: nothing else is attempted
    ensures cli.describe(service).Failed? ==> run == Run([Describe(service)], DescribeFailed(cli.describe(service).stderr))
    // register is attempted only after a successful describe and transform, with the transformed document
    ensures |run.calls| >= 2 ==>
      && cli.describe(service).Succeeded?
      && transform(cli.describe(service).stdout).Ok?
      && run.calls[1] == Register(JObject(transform(cli.describe(service).stdout).value))
    // register failed: update is not attempted
    ensures |run.calls| >= 2 && cli.register(run.calls[1].definition).Failed? ==>
      |run.calls| == 2 && run.ending == RegisterFailed(cli.register(run.calls[1].definition).stderr)
    // update is attempted only after a successful register, with the ARN it reported
    ensures |run.calls| == 3 ==>
      && cli.register(run.calls[1].definition).Succeeded?
      && RegisteredArn(cli.register(run.calls[1].definition).stdout).Ok?
      && run.calls[2] == UpdateService(service, service, RegisteredArn(cli.register(run.calls[1].definition).stdout).value)
    // a transform that raises ends the run right after the describe
    ensures cli.describe(service).Succeeded? && transform(cli.describe(service).stdout).Err? ==>
      run == Run([Describe(service)], Raised(transform(cli.describe(service).stdout).error))
    // a successful describe and transform always lead to the register call
    ensures cli.describe(service).Succeeded? && transform(cli.describe(service).stdout).Ok? ==> |run.calls| >= 2
    // after a successful register, update is attempted exactly when the ARN lookup succeeds,
    // and a failed lookup raises
    ensures |run.calls| >= 2 && cli.register(run.calls[1].definition).Succeeded? ==>
      && (RegisteredArn(cli.register(run.calls[1].definition).stdout).Ok? <==> |run.calls| == 3)
      && (RegisteredArn(cli.register(run.calls[1].definition).stdout).Err? ==>
            run.ending == Raised(RegisteredArn(cli.register(run.calls[1].definition).stdout).error))
    // a failed update ends the run with its error text
    ensures |run.calls| == 3 && cli.updateService(service, service, run.calls[2].taskDefinition).Failed? ==>
      run.ending == UpdateFailed(cli.updateService(service, service, run.calls[2].taskDefinition).stderr)
    // success means all three calls were made and the last one succeeded
    ensures run.ending == Updated <==> |run.calls| == 3 && cli.updateService(service, service, run.calls[2].taskDefinition).Succeeded?
  {
    var described := cli.describe(service);
    if described.Failed? then Run([Describe(service)], DescribeFailed(described.stderr))
    else
      var newTd := transform(described.stdout);
      if newTd.Err? then Run([Describe(service)], Raised(newTd.error))
      else
        var definition := JObject(newTd.value);
        var calls := [Describe(service), Register(definition)];
        var registered := cli.register(definition);
        if registered.Failed? then Run(calls, RegisterFailed(registered.stderr))
        else
          var arn := RegisteredArn(registered.stdout);
          if arn.Err? then Run(calls, Raised(arn.error))
          else
            var updated := cli.updateService(service, service, arn.value);
            var calls' := calls + [UpdateService(service, service, arn.value)];
            if updated.Failed? then Run(calls', UpdateFailed(updated.stderr))
            else Run(calls', Updated)
  }

  /**
   The document `deploy` registers is the one `update_td` would write for the
   same described definition and the tag 202601151258.
   */
  lemma DeployRegistersUpdateTdOutput(service: string, cli: Cli)
    requires |Deploy(service, cli, EcsTransform).calls| >= 2
    ensures Deploy(service, cli, EcsTransform).calls[1] == Register(UpdateTd.UpdateTd(cli.describe(service).stdout, DeployTag).value)
  {
  }

  /**
   The `__main__` block: `deploy` for each service in turn. An early return
   moves on to the next service; an exception ends the script, so no later
   service is attempted.
   */
  function DeployAll(services: seq<string>, cli: Cli, transform: Json -> Result<Object>): (runs: seq<Run>)
    ensures |runs| <= |services|
    ensures forall i :: 0 <= i < |runs| ==> runs[i] == Deploy(services[i], cli, transform)
    ensures forall i :: 0 <= i < |runs| - 1 ==> !runs[i].ending.Raised?
    ensures |runs| < |services| ==> |runs| > 0 && runs[|runs| - 1].ending.Raised?
  {
    RunInTurn(services, service => Deploy(service, cli, transform))
  }

  /**
   Running one deploy per service, in order, until one raises. Stated for
   any deploy function, so that the proof does not unfold `Deploy`.
   */
  function RunInTurn(services: seq<string>, deploy: string -> Run): (runs: seq<Run>)
    ensures |runs| <= |services|
    ensures forall i :: 0 <= i < |runs| ==> runs[i] == deploy(services[i])
    ensures forall i :: 0 <= i < |runs| - 1 ==> !runs[i].ending.Raised?
    ensures |runs| < |services| ==> |runs| > 0 && runs[|runs| - 1].ending.Raised?
  {
    if services == [] then []
    else
      var run := deploy(services[0]);
      if run.ending.Raised? then [run]
      else [run] + RunInTurn(services[1..], deploy)
  }

  /** A service is attempted exactly when no service before it raised. */
  lemma AttemptedIffNoEarlierRaise(services: seq<string>, cli: Cli, transform: Json -> Result<Object>, i: int)
    requires 0 <= i < |services|
    ensures i < |DeployAll(services, cli, transform)| <==> forall j :: 0 <= j < i ==> !Deploy(services[j], cli, transform).ending.Raised?
  {
    var runs := DeployAll(services, cli, transform);
    if i >= |runs| {
      var last := |runs| - 1;
      assert runs[last] == Deploy(services[last], cli, transform);
    }
  }

  /**
   Two services where describing the first fails: the second is still
   attempted.
   */
  lemma FailedDescribeContinues(first: string, second: string, cli: Cli, transform: Json -> Result<Object>)
    requires cli.describe(first).Failed?
    ensures |DeployAll([first, second], cli, transform)| == 2
    ensures DeployAll([first, second], cli, transform)[1] == Deploy(second, cli, transform)
  {
    AttemptedIffNoEarlierRaise([first, second], cli, transform, 1);
  }
}
