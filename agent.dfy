/**
 * One iteration of `runAgent` and the loop around it.  The transcript is the
 * module-level `messages` array, which the loop only ever pushes onto; the
 * Gemini call, the shell and the filesystem are replaced by what they answer
 * (a `Round`), and `JSON.parse` / `JSON.stringify` by the functions of a
 * `Config`.
 */
module Agent {
  import opened Wrappers
  import opened JsonValue
  import opened ReplyDecoding
  import opened Tools

  /** Who authored a transcript entry. */
  datatype Role = User | Model

  /** `{ role, parts: [{ text }] }`: every entry the program builds has
      exactly one text part. */
  datatype Entry = Entry(role: Role, text: string)

  /** A tool call that goes ahead: a call of `execCommand` that gets past the
      log line, with the value of the reply's `input` property (possibly
      `undefined`, which `exec` then rejects before launching anything), or
      a call of `writeInFile` whose `fs.writeFile` accepts its arguments. */
  datatype Effect =
    | RanCommand(command: Option<Json>)
    | WroteFile(fileName: Option<Json>, data: Option<Json>)

  /** What the outside world answers during one iteration.
      `reply` is `None` when `chat.sendMessage` rejects or `text()` throws;
      `exec` is how `execCommand` settles if the reply asks for it;
      `writeThrows` is whether `fs.writeFile` rejects its arguments
      synchronously (as Node does for a `fileName` that is neither a string
      nor a file descriptor, or for `data` that is not a string).  A write that fails later only reaches `console.error`. */
  datatype Round = Round(reply: Option<string>, exec: ExecOutcome, writeThrows: bool)

  /** `JSON.parse` (`None` when it throws) and `JSON.stringify`. */
  datatype Config = Config(parse: string -> Option<Json>, stringify: Json -> string)

  /** The loop's state: the transcript, the effects started so far, and
      whether the loop has left `while (true)` by `break`. */
  datatype State = State(messages: seq<Entry>, effects: seq<Effect>, halted: bool)

  /** The transcript's first entry: the system prompt and the user's query. */
  function SeedEntry(systemPrompt: string, userQuery: string): Entry {
    Entry(User, systemPrompt + "\n\nQuery: " + userQuery)
  }

  /** The value the loop acts on: the cleaned reply, parsed. */
  function Decoded(cfg: Config, round: Round): Option<Json> {
    match round.reply
    case None => None
    case Some(raw) => cfg.parse(CleanReply(raw))
  }

  /** `x && x === name` for a property value `x`. */
  predicate Names(x: Option<Json>, name: string) {
    Truthy(x) && x == Some(JString(name))
  }

  /** The truthiness test in front of `===` only rules out the empty name:
      for the names the loop tests it is plain strict equality. */
  lemma NamesIsStrictEquality(x: Option<Json>, name: string)
    ensures Names(x, name) <==> name != "" && x == Some(JString(name))
  {
  }

  /** The entry pushed for a parsed reply. */
  function ModelEntry(cfg: Config, v: Json): Entry {
    Entry(Model, cfg.stringify(v))
  }

  /** The entry `{ step: 'observe', content }` pushed after a tool. */
  function ObserveEntry(cfg: Config, content: string): Entry {
    Entry(Model, cfg.stringify(JObject([("step", JString("observe")), ("content", JString(content))])))
  }

  const WrittenPrefix: string := "Data written into "

  /** The reply asks the loop to stop: its `step` is "output". */
  predicate HaltsOn(cfg: Config, round: Round) {
    var v := Decoded(cfg, round);
    v.Some? && !v.value.JNull? && Names(Get(v.value, "step").value, "output")
  }

  /** The `action` branch, after the model entry has been pushed. */
  function Dispatch(cfg: Config, s: State, v: Json, round: Round): (t: State)
    requires !v.JNull?
    ensures |s.messages| <= |t.messages| <= |s.messages| + 1 && t.messages[..|s.messages|] == s.messages
    ensures |s.effects| <= |t.effects| <= |s.effects| + 1 && t.effects[..|s.effects|] == s.effects
    ensures t.halted == s.halted
    ensures Get(v, "tool").value == Some(JString("execCommand")) && PropertyToStringThrows(Get(v, "input").value) ==> t == s
    ensures Get(v, "tool").value == Some(JString("writeInFile")) && round.writeThrows ==> t == s
    ensures Get(v, "tool").value != Some(JString("execCommand")) && Get(v, "tool").value != Some(JString("writeInFile")) ==> t == s
    ensures |t.effects| == |s.effects| + 1 <==>
              || (Get(v, "tool").value == Some(JString("execCommand")) && !PropertyToStringThrows(Get(v, "input").value))
              || (Get(v, "tool").value == Some(JString("writeInFile")) && !round.writeThrows)
  {
    var tool := Get(v, "tool").value;
    if tool == Some(JString("execCommand")) then
      var input := Get(v, "input").value;
      // The log line `Tool -> ${tool} : ${input}` comes first and can throw.
      if ShowProperty(input).Err? then s
      else
        var started := s.(effects := s.effects + [RanCommand(input)]);
        match round.exec
        case Rejected => started
        case Resolved(out, err) =>
          started.(messages := started.messages + [ObserveEntry(cfg, ExecResultText(out, err))])
    else if tool == Some(JString("writeInFile")) then
      var fileName := Get(v, "fileName").value;
      if round.writeThrows then s
      else
        var started := s.(effects := s.effects + [WroteFile(fileName, Get(v, "data").value)]);
        match ShowProperty(fileName)
        case Err(_) => started
        case Ok(name) => started.(messages := started.messages + [ObserveEntry(cfg, WrittenPrefix + name)])
    else
      s
  }

  /** One pass through the body of `while (true)`, the `catch` included. */
  function Step(cfg: Config, s: State, round: Round): (t: State)
    requires !s.halted
    ensures |s.messages| <= |t.messages| <= |s.messages| + 2 && t.messages[..|s.messages|] == s.messages
    ensures |s.effects| <= |t.effects| <= |s.effects| + 1 && t.effects[..|s.effects|] == s.effects
    ensures t.halted <==> HaltsOn(cfg, round)
  {
    match Decoded(cfg, round)
    case None => s
    case Some(v) =>
      var logged := s.(messages := s.messages + [ModelEntry(cfg, v)]);
      if v.JNull? then logged
      else
        var step := Get(v, "step").value;
        assert Names(step, "output") ==> !Names(step, "think") && !Names(step, "action");
        if Names(step, "think") then logged
        else if Names(step, "output") then logged.(halted := true)
        else if Names(step, "action") then Dispatch(cfg, logged, v, round)
        else logged
  }

  /** Iterations over a finite list of rounds, until one halts the loop. */
  function RunAll(cfg: Config, s: State, rounds: seq<Round>): State
    decreases |rounds|
  {
    if rounds == [] || s.halted then s
    else RunAll(cfg, Step(cfg, s, rounds[0]), rounds[1..])
  }

  /** How many rounds a run reads: every round up to and including the one
      that halts the loop. */
  function Consumed(cfg: Config, s: State, rounds: seq<Round>): (n: nat)
    ensures n <= |rounds|
    decreases |rounds|
  {
    if rounds == [] || s.halted then 0
    else 1 + Consumed(cfg, Step(cfg, s, rounds[0]), rounds[1..])
  }

  lemma ConsumedStep(cfg: Config, s: State, rounds: seq<Round>)
    requires rounds != [] && !s.halted
    ensures Consumed(cfg, s, rounds) == 1 + Consumed(cfg, Step(cfg, s, rounds[0]), rounds[1..])
  {
  }

  /** A run reads rounds up to the first one that replies "output" and no
      further: no round before the last one it reads halts, and the last one
      does unless the rounds ran out. */
  lemma {:induction false} ConsumedStopsAtFirstOutput(cfg: Config, s: State, rounds: seq<Round>)
    requires !s.halted
    ensures forall k :: 0 <= k < Consumed(cfg, s, rounds) - 1 ==> !HaltsOn(cfg, rounds[k])
    ensures Consumed(cfg, s, rounds) < |rounds| ==>
              Consumed(cfg, s, rounds) > 0 && HaltsOn(cfg, rounds[Consumed(cfg, s, rounds) - 1])
    ensures Consumed(cfg, s, rounds) == |rounds| && rounds != [] ==>
              (RunAll(cfg, s, rounds).halted <==> HaltsOn(cfg, rounds[|rounds| - 1]))
    decreases |rounds|
  {
    if rounds != [] {
      var t := Step(cfg, s, rounds[0]);
      if !t.halted {
        ConsumedStopsAtFirstOutput(cfg, t, rounds[1..]);
        var n := Consumed(cfg, t, rounds[1..]);
        forall k | 1 <= k < n
          ensures !HaltsOn(cfg, rounds[k])
        {
          assert rounds[1..][k - 1] == rounds[k];
        }
        if n > 0 {
          assert rounds[1..][n - 1] == rounds[n];
        }
        if n == |rounds| - 1 && n > 0 {
          assert rounds[1..][|rounds| - 2] == rounds[|rounds| - 1];
        }
      }
    }
  }

  /** A reply that never arrives or does not parse leaves everything as it
      was, and only such a reply does. */
  lemma UnparsedReplyChangesNothing(cfg: Config, s: State, round: Round)
    requires !s.halted
    ensures Decoded(cfg, round).None? <==> Step(cfg, s, round) == s
  {
  }

  /** A parsed reply is logged, serialised, before anything is dispatched on it. */
  lemma ParsedReplyLoggedFirst(cfg: Config, s: State, round: Round, v: Json)
    requires !s.halted && Decoded(cfg, round) == Some(v)
    ensures |Step(cfg, s, round).messages| > |s.messages|
    ensures Step(cfg, s, round).messages[|s.messages|] == ModelEntry(cfg, v)
  {
  }

  /** Unless the reply is an action, its model entry is the only change. */
  lemma NonActionLogsOnly(cfg: Config, s: State, round: Round, v: Json)
    requires !s.halted && Decoded(cfg, round) == Some(v)
    requires v.JNull? || !Names(Get(v, "step").value, "action")
    ensures Step(cfg, s, round).messages == s.messages + [ModelEntry(cfg, v)]
    ensures Step(cfg, s, round).effects == s.effects
  {
  }

  /** An `execCommand` action whose `input` converts to a string starts the
      command; a resolved command is reported in one observe entry, a
      rejected one in none.  An `input` that cannot be converted makes the
      log line throw before the command starts. */
  lemma ExecActionObserved(cfg: Config, s: State, round: Round, v: Json)
    requires !s.halted && Decoded(cfg, round) == Some(v) && !v.JNull?
    requires Names(Get(v, "step").value, "action")
    requires Get(v, "tool") == Ok(Some(JString("execCommand")))
    ensures !Step(cfg, s, round).halted
    ensures PropertyToStringThrows(Get(v, "input").value) ==>
              Step(cfg, s, round) == s.(messages := s.messages + [ModelEntry(cfg, v)])
    ensures !PropertyToStringThrows(Get(v, "input").value) ==>
              Step(cfg, s, round).effects == s.effects + [RanCommand(Get(v, "input").value)]
    ensures !PropertyToStringThrows(Get(v, "input").value) && round.exec.Resolved? ==>
              Step(cfg, s, round).messages
                == s.messages + [ModelEntry(cfg, v), ObserveEntry(cfg, ExecResultText(round.exec.stdout, round.exec.stderr))]
    ensures !PropertyToStringThrows(Get(v, "input").value) && round.exec.Rejected? ==>
              Step(cfg, s, round).messages == s.messages + [ModelEntry(cfg, v)]
  {
  }

  /** A `writeInFile` action that Node accepts starts the write and is
      reported as written, with the file name interpolated, whatever becomes
      of the write itself; a file name that cannot be converted to a string
      makes the report throw after the write has started. */
  lemma WriteActionObserved(cfg: Config, s: State, round: Round, v: Json)
    requires !s.halted && Decoded(cfg, round) == Some(v) && !v.JNull?
    requires Names(Get(v, "step").value, "action")
    requires Get(v, "tool") == Ok(Some(JString("writeInFile")))
    ensures !round.writeThrows ==>
              Step(cfg, s, round).effects == s.effects + [WroteFile(Get(v, "fileName").value, Get(v, "data").value)]
    ensures round.writeThrows ==> Step(cfg, s, round).effects == s.effects
    ensures !round.writeThrows && !PropertyToStringThrows(Get(v, "fileName").value) ==>
              Step(cfg, s, round).messages
                == s.messages + [ModelEntry(cfg, v), ObserveEntry(cfg, WrittenPrefix + ShowProperty(Get(v, "fileName").value).value)]
    ensures round.writeThrows || PropertyToStringThrows(Get(v, "fileName").value) ==>
              Step(cfg, s, round).messages == s.messages + [ModelEntry(cfg, v)]
    ensures !Step(cfg, s, round).halted
  {
  }

  /** With a string file name the observation reads "Data written into <name>". */
  lemma WriteObservationNamesFile(fileName: string)
    ensures ShowProperty(Some(JString(fileName))).Ok?
    ensures WrittenPrefix + ShowProperty(Some(JString(fileName))).value == "Data written into " + fileName
  {
  }

  /** An action naming any other tool adds its model entry and nothing else. */
  lemma UnknownToolIgnored(cfg: Config, s: State, round: Round, v: Json)
    requires !s.halted && Decoded(cfg, round) == Some(v) && !v.JNull?
    requires Names(Get(v, "step").value, "action")
    requires Get(v, "tool").value != Some(JString("execCommand"))
    requires Get(v, "tool").value != Some(JString("writeInFile"))
    ensures Step(cfg, s, round) == s.(messages := s.messages + [ModelEntry(cfg, v)])
  {
  }

  /** Iterating only appends: the transcript and the effects before a run are
      prefixes of those after it. */
  lemma {:induction false} RunOnlyAppends(cfg: Config, s: State, rounds: seq<Round>)
    ensures s.messages <= RunAll(cfg, s, rounds).messages
    ensures s.effects <= RunAll(cfg, s, rounds).effects
    ensures |RunAll(cfg, s, rounds).messages| <= |s.messages| + 2 * |rounds|
    decreases |rounds|
  {
    if rounds != [] && !s.halted {
      RunOnlyAppends(cfg, Step(cfg, s, rounds[0]), rounds[1..]);
    }
  }

  /** The loop stops exactly when some round it reaches replies "output";
      no other reply, parsed or not, ends it. */
  lemma {:induction false} RunHaltsIffOutput(cfg: Config, s: State, rounds: seq<Round>)
    ensures RunAll(cfg, s, rounds).halted <==> s.halted || exists i :: 0 <= i < |rounds| && HaltsOn(cfg, rounds[i])
    decreases |rounds|
  {
    if rounds != [] && !s.halted {
      RunHaltsIffOutput(cfg, Step(cfg, s, rounds[0]), rounds[1..]);
      if exists i :: 0 <= i < |rounds| && HaltsOn(cfg, rounds[i]) {
        var i :| 0 <= i < |rounds| && HaltsOn(cfg, rounds[i]);
        if i > 0 {
          assert HaltsOn(cfg, rounds[1..][i - 1]);
        }
      }
      if i :| 0 <= i < |rounds| - 1 && HaltsOn(cfg, rounds[1..][i]) {
        assert HaltsOn(cfg, rounds[i + 1]);
      }
    }
  }

  /** Running two lists of rounds one after the other is running their
      concatenation. */
  lemma {:induction false} RunAllAppend(cfg: Config, s: State, first: seq<Round>, second: seq<Round>)
    ensures RunAll(cfg, s, first + second) == RunAll(cfg, RunAll(cfg, s, first), second)
    decreases |first|
  {
    if first != [] && !s.halted {
      assert (first + second)[1..] == first[1..] + second;
      RunAllAppend(cfg, Step(cfg, s, first[0]), first[1..], second);
    } else if first == [] {
      assert first + second == second;
    }
  }

  /** Rounds after the first "output" are never consumed. */
  lemma RunIgnoresRoundsAfterOutput(cfg: Config, s: State, rounds: seq<Round>, i: nat)
    requires i < |rounds| && HaltsOn(cfg, rounds[i])
    ensures RunAll(cfg, s, rounds) == RunAll(cfg, s, rounds[..i + 1])
  {
    var done := RunAll(cfg, s, rounds[..i + 1]);
    RunHaltsIffOutput(cfg, s, rounds[..i + 1]);
    assert rounds[..i + 1][i] == rounds[i];
    assert done.halted;
    RunAllAppend(cfg, s, rounds[..i + 1], rounds[i + 1..]);
    assert rounds[..i + 1] + rounds[i + 1..] == rounds;
  }

  /** One more iteration of `Run` keeps it in step with `RunAll` and
      `Consumed`. */
  lemma RunReadsOneMore(cfg: Config, start: State, rounds: seq<Round>, c: nat, before: State)
    requires c < |rounds| && !before.halted && before == RunAll(cfg, start, rounds[..c])
    requires Consumed(cfg, start, rounds) == c + Consumed(cfg, before, rounds[c..])
    ensures Step(cfg, before, rounds[c]) == RunAll(cfg, start, rounds[..c + 1])
    ensures Consumed(cfg, start, rounds) == c + 1 + Consumed(cfg, Step(cfg, before, rounds[c]), rounds[c + 1..])
  {
    ConsumedStep(cfg, before, rounds[c..]);
    assert rounds[c..][0] == rounds[c];
    assert rounds[c..][1..] == rounds[c + 1..];
    RunAllAppend(cfg, start, rounds[..c], [rounds[c]]);
    assert rounds[..c] + [rounds[c]] == rounds[..c + 1];
  }

  /** When `Run` stops, it has reached the state `RunAll` computes and read
      the rounds `Consumed` counts. */
  lemma RunReadsNoMore(cfg: Config, start: State, rounds: seq<Round>, c: nat, now: State)
    requires c <= |rounds| && (now.halted || c == |rounds|) && now == RunAll(cfg, start, rounds[..c])
    requires Consumed(cfg, start, rounds) == c + Consumed(cfg, now, rounds[c..])
    ensures now == RunAll(cfg, start, rounds)
    ensures c == Consumed(cfg, start, rounds)
  {
    RunAllAppend(cfg, start, rounds[..c], rounds[c..]);
    assert rounds[..c] + rounds[c..] == rounds;
  }

  /** The agent: the transcript it owns and the effects it has started. */
  class AgentLoop {
    const cfg: Config
    const seed: Entry
    var messages: seq<Entry>
    var effects: seq<Effect>
    var halted: bool

    /** The seeded user entry is still the first one. */
    ghost predicate Valid()
      reads this
    {
      |messages| >= 1 && messages[0] == seed
    }

    function Snapshot(): State
      reads this
    {
      State(messages, effects, halted)
    }

    /** `const messages = [{ role: "user", ... }]`, before the loop starts. */
    constructor (systemPrompt: string, userQuery: string, parse: string -> Option<Json>, stringify: Json -> string)
      ensures Valid()
      ensures cfg == Config(parse, stringify) && seed == SeedEntry(systemPrompt, userQuery)
      ensures messages == [seed] && effects == [] && !halted
    {
      cfg := Config(parse, stringify);
      seed := SeedEntry(systemPrompt, userQuery);
      messages := [SeedEntry(systemPrompt, userQuery)];
      effects := [];
      halted := false;
    }

    /** One pass through the body of `while (true)`; a `return` here is the
        source's `continue`, or the `catch` that swallows an error. */
    method Iterate(round: Round)
      requires Valid() && !halted
      modifies this
      ensures Valid()
      ensures Snapshot() == Step(cfg, old(Snapshot()), round)
    {
      if round.reply.None? {
        return;
      }
      var cleaned := CleanReply(round.reply.value);
      var parsed := cfg.parse(cleaned);
      if parsed.None? {
        return;
      }
      var v := parsed.value;
      messages := messages + [ModelEntry(cfg, v)];
      var step := Get(v, "step");
      if step.Err? {
        return;
      }
      if Names(step.value, "think") {
        return;
      }
      if Names(step.value, "output") {
        halted := true;
        return;
      }
      if Names(step.value, "action") {
        var tool := Get(v, "tool").value;
        if tool == Some(JString("execCommand")) {
          var input := Get(v, "input").value;
          var logText := ShowProperty(input);
          if logText.Err? {
            return;
          }
          effects := effects + [RanCommand(input)];
          match round.exec {
            case Rejected =>
              return;
            case Resolved(out, err) =>
              messages := messages + [ObserveEntry(cfg, ExecResultText(out, err))];
          }
        }
        if tool == Some(JString("writeInFile")) {
          var fileName := Get(v, "fileName").value;
          var data := Get(v, "data").value;
          if round.writeThrows {
            return;
          }
          effects := effects + [WroteFile(fileName, data)];
          var name := ShowProperty(fileName);
          if name.Err? {
            return;
          }
          messages := messages + [ObserveEntry(cfg, WrittenPrefix + name.value)];
        }
      }
    }

    /** Iterates over `rounds` until the loop halts or they run out, and
        tells how many it consumed. */
    method Run(rounds: seq<Round>) returns (consumed: nat)
      requires Valid()
      modifies this
      ensures Valid()
      ensures consumed <= |rounds| && (halted || consumed == |rounds|)
      ensures Snapshot() == RunAll(cfg, old(Snapshot()), rounds)
      ensures Snapshot() == RunAll(cfg, old(Snapshot()), rounds[..consumed])
      ensures consumed == Consumed(cfg, old(Snapshot()), rounds)
    {
      ghost var start := Snapshot();
      consumed := 0;
      while consumed < |rounds| && !halted
        invariant Valid() && consumed <= |rounds|
        invariant Snapshot() == RunAll(cfg, start, rounds[..consumed])
        invariant Consumed(cfg, start, rounds) == consumed + Consumed(cfg, Snapshot(), rounds[consumed..])
      {
        ghost var before := Snapshot();
        Iterate(rounds[consumed]);
        RunReadsOneMore(cfg, start, rounds, consumed, before);
        consumed := consumed + 1;
      }
      RunReadsNoMore(cfg, start, rounds, consumed, Snapshot());
    }
  }
}
