/** `jContainer.management.CloudWatchLogsManager`: finds the log event an
    ECS task wrote, and reads the function result and the execution time
    from it. */
module CloudWatch {
  import opened Wrappers
  import opened Text
  import opened Constants
  import opened World

  /** `LOG_GROUP_PREFIX`: the root of every stream name. */
  const LogStreamRoot := LogGroupPrefix + "/"

  /** The log group queried for a function: the configured group name with
      the lower-cased function name and local user appended. */
  function CloudWatchLogGroup(c: Config, f: string): string {
    LogGroupName + "_" + Lower(f) + "_" + Lower(c.localUser)
  }

  /** The queried group starts with the configured name and holds no
      upper-case letter after it. */
  lemma CloudWatchLogGroupLowerCase(c: Config, f: string)
    ensures LogGroupName <= CloudWatchLogGroup(c, f)
    ensures IsLowerCase(CloudWatchLogGroup(c, f)[|LogGroupName|..])
    ensures CloudWatchLogGroup(c, f) == CloudWatchLogGroup(c.(localUser := Lower(c.localUser)), Lower(f))
  {
    LowerProperties(f);
    LowerProperties(c.localUser);
    var tail := "_" + Lower(f) + "_" + Lower(c.localUser);
    assert CloudWatchLogGroup(c, f) == LogGroupName + tail;
    assert CloudWatchLogGroup(c, f)[|LogGroupName|..] == tail;
  }

  /** The stream-name prefix queried for a function. */
  function LogStreamPrefix(f: string): string {
    LogStreamRoot + f
  }

  /** The manager's state: its log group and the event it selected, unset
      until a poll finds one. */
  datatype CloudWatchManager = CloudWatchManager(logGroupName: string, resultEvent: Option<LogEvent>)

  function NewCloudWatchManager(c: Config, f: string): (m: CloudWatchManager)
    ensures m.logGroupName == CloudWatchLogGroup(c, f) && m.resultEvent == None
  {
    CloudWatchManager(CloudWatchLogGroup(c, f), None)
  }

  /** `getLogEvents` over the successive answers of the log store: one
      filter request per poll until a poll returns events, and the first
      event of that poll. The code polls without bound; a store whose
      answers run out models a poll that never ends. */
  function GetLogEvents(polls: seq<seq<LogEvent>>, group: string, prefix: string): (r: Run<LogEvent>)
    ensures forall i :: 0 <= i < |r.events| ==> r.events[i] == LogQuery(group, prefix)
    ensures r.value.Ok? <==> exists k :: 0 <= k < |polls| && polls[k] != []
    ensures r.value.Ok? ==>
      1 <= |r.events| <= |polls| && polls[|r.events| - 1] != [] &&
      r.value.value == polls[|r.events| - 1][0] &&
      forall j :: 0 <= j < |r.events| - 1 ==> polls[j] == []
    ensures r.value.Err? ==> r.value.error == PollsExhausted && |r.events| == |polls|
    decreases |polls|
  {
    if |polls| == 0 then Run([], Err(PollsExhausted))
    else if polls[0] != [] then Run([LogQuery(group, prefix)], Ok(polls[0][0]))
    else
      var rest := GetLogEvents(polls[1..], group, prefix);
      assert forall j :: 1 <= j < |polls| ==> polls[j] == polls[1..][j - 1];
      assert rest.value.Ok? ==> exists k :: 0 <= k < |polls| && polls[k] != [] by {
        if rest.value.Ok? {
          var k :| 0 <= k < |polls[1..]| && polls[1..][k] != [];
          assert polls[k + 1] != [];
        }
      }
      Run([LogQuery(group, prefix)] + rest.events, rest.value)
  }

  /** An empty poll only adds a request; the outcome is that of the polls
      after it. */
  lemma EmptyPollSkipped(polls: seq<seq<LogEvent>>, group: string, prefix: string, k: nat)
    requires k < |polls| && polls[k] == []
    ensures GetLogEvents(polls[k..], group, prefix).events == [LogQuery(group, prefix)] + GetLogEvents(polls[k + 1..], group, prefix).events
    ensures GetLogEvents(polls[k..], group, prefix).value == GetLogEvents(polls[k + 1..], group, prefix).value
  {
    assert polls[k..][1..] == polls[k + 1..];
  }

  /** The polling loop's invariant carries over an empty poll. */
  lemma PollStep(whole: seq<Event>, events: seq<Event>, q: Event, rest: seq<Event>)
    requires whole == events + ([q] + rest)
    ensures whole == (events + [q]) + rest
  {
    assert events + ([q] + rest) == (events + [q]) + rest;
  }

  /** Where the loop stops: no poll left, or a non-empty one. */
  lemma PollEnd(polls: seq<seq<LogEvent>>, group: string, prefix: string, k: nat)
    requires k <= |polls|
    ensures k == |polls| ==> GetLogEvents(polls[k..], group, prefix) == Run([], Err(PollsExhausted))
    ensures k < |polls| && polls[k] != [] ==>
      GetLogEvents(polls[k..], group, prefix) == Run([LogQuery(group, prefix)], Ok(polls[k][0]))
  {
    if k == |polls| {
      assert polls[k..] == [];
    } else {
      assert polls[k..][0] == polls[k];
    }
  }

  /** The polling loop: the same requests and the same event as
      `GetLogEvents`. */
  method PollLogEvents(polls: seq<seq<LogEvent>>, group: string, prefix: string) returns (events: seq<Event>, value: Result<LogEvent>)
    ensures Run(events, value) == GetLogEvents(polls, group, prefix)
  {
    var k := 0;
    events := [];
    assert polls[k..] == polls && events + GetLogEvents(polls, group, prefix).events == GetLogEvents(polls, group, prefix).events;
    while k < |polls| && polls[k] == []
      invariant 0 <= k <= |polls|
      invariant GetLogEvents(polls, group, prefix).events == events + GetLogEvents(polls[k..], group, prefix).events
      invariant GetLogEvents(polls, group, prefix).value == GetLogEvents(polls[k..], group, prefix).value
      decreases |polls| - k
    {
      EmptyPollSkipped(polls, group, prefix, k);
      PollStep(GetLogEvents(polls, group, prefix).events, events, LogQuery(group, prefix), GetLogEvents(polls[k + 1..], group, prefix).events);
      events := events + [LogQuery(group, prefix)];
      k := k + 1;
    }
    PollEnd(polls, group, prefix, k);
    if k == |polls| {
      value := Err(PollsExhausted);
      assert events + [] == events;
    } else {
      events := events + [LogQuery(group, prefix)];
      value := Ok(polls[k][0]);
    }
  }

  /** `resultFromLogStreamPrefix`: for a non-empty function name, poll the
      function's streams, keep the selected event and parse its message. For
      an empty name nothing is polled and the previously selected event is
      read, which throws while none is selected. */
  function ResultFromLogStreamPrefix(store: (string, string) -> seq<seq<LogEvent>>, parse: string -> Parsed,
                                     m: CloudWatchManager, f: string): (r: Run<(CloudWatchManager, Option<Json>)>)
    ensures f == [] ==> r.events == []
    ensures f == [] && m.resultEvent.None? ==> r.value == Err(NullReference)
    ensures r.value.Ok? ==> r.value.value.0.resultEvent.Some? && r.value.value.0.logGroupName == m.logGroupName
    ensures f != [] ==> forall i :: 0 <= i < |r.events| ==> r.events[i] == LogQuery(m.logGroupName, LogStreamPrefix(f))
    ensures f != [] ==>
      var polled := GetLogEvents(store(m.logGroupName, LogStreamPrefix(f)), m.logGroupName, LogStreamPrefix(f));
      (polled.value.Err? ==> r.value == Err(PollsExhausted)) &&
      (polled.value.Ok? ==>
        (r.value.Ok? <==> !parse(polled.value.value.message).Malformed?) &&
        (r.value.Ok? ==> r.value.value.0 == m.(resultEvent := Some(polled.value.value)) &&
                         Ok(r.value.value.1) == GenerateJsonOutput(parse, polled.value.value.message)))
  {
    if f != [] then
      var prefix := LogStreamPrefix(f);
      var polled := GetLogEvents(store(m.logGroupName, prefix), m.logGroupName, prefix);
      match polled.value
      case Err(e) => Run(polled.events, Err(e))
      case Ok(event) =>
        match GenerateJsonOutput(parse, event.message)
        case Err(e) => Run(polled.events, Err(e))
        case Ok(json) => Run(polled.events, Ok((m.(resultEvent := Some(event)), json)))
    else
      match m.resultEvent
      case None => Run([], Err(NullReference))
      case Some(event) =>
        match GenerateJsonOutput(parse, event.message)
        case Err(e) => Run([], Err(e))
        case Ok(json) => Run([], Ok((m, json)))
  }

  const TwoTo63: int := 0x8000_0000_0000_0000
  const TwoTo64: int := 0x1_0000_0000_0000_0000

  predicate InLongRange(x: int) {
    -TwoTo63 <= x < TwoTo63
  }

  /** Java `long` arithmetic: the value in range that agrees with `x`
      modulo 2^64. */
  function WrapLong(x: int): (r: int)
    ensures InLongRange(r)
    ensures (r - x) % TwoTo64 == 0
    ensures InLongRange(x) ==> r == x
  {
    var m := x % TwoTo64;
    if m >= TwoTo63 then m - TwoTo64 else m
  }

  /** `executionTimeFromLogEvent`: ingestion time minus timestamp of the
      selected event, in `long` arithmetic; throws while no event is
      selected. */
  function ExecutionTimeFromLogEvent(m: CloudWatchManager): (r: Result<int>)
    ensures r.Err? <==> m.resultEvent.None?
    ensures r.Err? ==> r.error == NullReference
    ensures r.Ok? ==> InLongRange(r.value)
    ensures r.Ok? ==> (r.value - (m.resultEvent.value.ingestionTime - m.resultEvent.value.timestamp)) % TwoTo64 == 0
    ensures r.Ok? && InLongRange(m.resultEvent.value.ingestionTime - m.resultEvent.value.timestamp) ==>
      r.value == m.resultEvent.value.ingestionTime - m.resultEvent.value.timestamp
  {
    match m.resultEvent
    case None => Err(NullReference)
    case Some(event) => Ok(WrapLong(event.ingestionTime - event.timestamp))
  }
}
