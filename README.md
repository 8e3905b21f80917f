# My-Cursor-Agent: the agent loop of `index.js`, modelled in Dafny

`index.js` runs a coding agent. The conversation starts with one user entry (the system prompt followed by the user's query). Then `runAgent` loops forever:

- It asks Gemini for the next turn.
- It cleans the reply: trim, delete every "```json", delete every "```", trim again.
- It parses the result with `JSON.parse` and pushes the serialised value onto the module-level `messages` array as a `model` entry.
- It dispatches on the parsed value's `step`:
  - `think` continues;
  - `output` leaves the loop;
  - `action` runs the named tool (`execCommand` or `writeInFile`) and pushes an `observe` entry: the labelled output streams for `execCommand`, and the fixed text "Data written into " followed by the file name for `writeInFile`, which returns nothing.

Any exception is logged and the loop goes round again. The file also defines `extractFirstJSON`, a decoder that parses the first `{...}` span of a text. The loop does not call it; its call is commented out.

The model covers:

- `wrappers.dfy`: `Option` (JavaScript's `undefined`) and `Result` (a thrown error).
- `strings.dfy`: `String.prototype.trim` with ECMAScript's whitespace set, and `replace` with a global literal pattern (`RemoveAll`). Lemmas about occurrences, subsequences and code fences.
- `json_value.dfy`: the values `JSON.parse` returns, and the three things the loop does with them:
  - property reads, which throw on `null`, with the last duplicate key winning;
  - JavaScript truthiness;
  - template-literal interpolation, which throws for an object with a `toString` member or an array holding one.
- `reply_decoding.dfy`: the cleaning chain, and `extractFirstJSON` with its lazy regular expression `/\{[\s\S]*?\}/`.
- `tools.dfy`: the text a resolved `execCommand` produces, and how far the two streams can be read back out of it.
- `agent.dfy`: one loop iteration as a pure function `Step` over a `State` (transcript, started effects, halted flag), and `RunAll` over a finite list of rounds. The class `AgentLoop` owns `messages`; its method `Iterate` follows the source's branches and early exits, and is proved equal to `Step`.

What the outside world answers in one iteration is an input, a `Round`. It holds:

- the reply text, or nothing when `sendMessage` or `text()` throws;
- how `execCommand`'s promise settles;
- whether `fs.writeFile` throws on its arguments.

`JSON.parse` and `JSON.stringify` are function parameters, held in a `Config`.

Where the code departs from the observe–think–act–output protocol it is meant to follow, the model follows the code:

- The loop parses strictly with `JSON.parse`. `extractFirstJSON` is modelled, but the loop does not use it.
- An action is not always followed by an observe entry. There is none when the tool is unknown (`UnknownToolIgnored`), when `execCommand` rejects, or when `writeFile` throws (`ExecActionObserved`, `WriteActionObserved`). In those cases the `catch` swallows the error, or the action is simply skipped.
- Any value that parses is logged, even when it is not a protocol step. That includes `null`: reading `.step` of `null` then throws, after the entry has already been pushed (`NonActionLogsOnly`).
- A write is reported as done as soon as `fs.writeFile` accepts its arguments. A later failure reaches only `console.error` (`WriteActionObserved`).
- The `execCommand` result text cannot always be split back into stdout and stderr (`ExecResultAmbiguous`).
- An `execCommand` action whose `input` is an object with a `toString` member, or an array holding one, throws while the log line at index.js:164 is built. The command never starts and nothing is observed (`ExecActionObserved`). If `fs.writeFile` accepts a `fileName` of that kind, the observe text at index.js:184 throws after the write has started (`WriteActionObserved`). Node normally rejects a `fileName` that is neither a string nor a file descriptor synchronously at index.js:179, before any write; whether it does is an input of the round.

## Model

| member | source | states |
|---|---|---|
| Strings.Trim | index.js:126 | the result has no whitespace at either end, and is the input with only whitespace removed before the first kept character and after the last |
| Strings.TrimOfTrimmed | index.js:133 | trimming a text with no whitespace at either end leaves it unchanged |
| Strings.RemoveAll | index.js:131-132 | a global `replace` of a literal pattern by nothing only deletes characters, and changes nothing when the pattern does not occur |
| Strings.TrimAddsNoRun | index.js:126 | trimming cannot create an occurrence of a pattern the input lacked |
| Strings.TrimIsSubsequence | index.js:126 | trimming only deletes characters |
| Strings.NoFenceAfterRemoval | index.js:132 | after every "```" is removed, no "```" is left, even from longer runs of backticks |
| Strings.ContainsAt | index.js:131-132 | the recursive containment test agrees with "the pattern occurs at some index" |
| ReplyDecoding.CleanReply | index.js:126-133 | no contract of its own; CleanReplySound, CleanReplyIdempotent, CleanReplyOfUnfenced and CleanReplyUnwrapsCodeBlock state its properties |
| ReplyDecoding.CleanReplySound | index.js:126-133 | the cleaned reply contains no "```", has no whitespace at either end, and is the raw reply with characters deleted |
| ReplyDecoding.NoJsonFenceWithoutFence | index.js:131-132 | a text without "```" has no "```json" either, so the first removal is then a no-op |
| ReplyDecoding.CleanReplyIdempotent | index.js:126-133 | cleaning an already cleaned reply changes nothing |
| ReplyDecoding.CleanReplyOfUnfenced | index.js:126-133 | a reply without any fence is only trimmed |
| ReplyDecoding.RemoveAllSkipsPlainText | index.js:131-132 | text without a backtick passes through a fence removal unchanged |
| ReplyDecoding.CleanReplyUnwrapsCodeBlock | index.js:126-133 | a reply "```json" + body + "```" with a backtick-free body cleans to the trimmed body |
| ReplyDecoding.LeftmostLazyMatch | index.js:29 | finds no match exactly when no opening brace has a closing brace after it; otherwise the match starts at the first such opening brace and ends at the first closing brace after it |
| ReplyDecoding.ExtractFirstJson | index.js:28-32 | throws "No valid JSON found" exactly when no `{` is followed by a `}`; otherwise it parses the leftmost lazy brace span, returning its value or the parse failure |
| ReplyDecoding.FirstBraceSpanUnique | index.js:29 | only one span meets the match's conditions, so the match is determined |
| ReplyDecoding.IndexOfChar | index.js:29 | the first index at or after `from` holding the character, or none |
| JsonValue.Lookup | index.js:159 | a property read finds a value exactly when some member names the key, and the value comes from such a member |
| JsonValue.LookupFindsLastBinding | index.js:159 | with duplicate keys, the last member naming the key supplies the value |
| JsonValue.Show | index.js:164 | converting a value to text throws exactly when ToString finds no primitive form (an object with a `toString` member, or an array with such an element); a string converts to itself |
| JsonValue.ShowProperty | index.js:184 | `${x}` of a property value throws exactly when the value is defined and its conversion throws |
| JsonValue.Get | index.js:150 | reading a property throws exactly on `null`; an object yields the value of its last member with that key, as `Lookup` finds it; any other value yields `undefined` |
| JsonValue.GetReadsLastBinding | index.js:159 | `v.key` on a parsed object is the value of the last member named `key` |
| Tools.ExecResultText | index.js:14 | no contract of its own; SplitExecResult is its inverse, and ExecResultRoundTrip and ExecResultAmbiguous say when the streams can be read back |
| Tools.SplitExecResult | index.js:14 | a split that succeeds gives streams whose result text is the input, with no stderr label inside stdout |
| Tools.ExecResultRoundTrip | index.js:14 | the streams are read back exactly whenever stdout does not contain "\nstderr:" |
| Tools.FirstLabelAfterStdout | index.js:14 | no stderr label starts inside the stdout part of a result text whose stdout is label-free |
| Tools.NoLabelBeforeFirst | index.js:14 | the part before the first stderr label contains no label |
| Tools.NoLabelAt | index.js:14 | a label-free part followed by the label holds no occurrence of the label |
| Tools.LabelCannotStraddle | index.js:14 | two occurrences of "\nstderr:" cannot overlap |
| Tools.ExecResultAmbiguous | index.js:14 | two different stream pairs give the same result text, so the split cannot recover the first |
| Agent.Names | index.js:150-158 | no contract of its own; NamesIsStrictEquality states what it tests |
| Agent.NamesIsStrictEquality | index.js:150-158 | `x && x === name` holds exactly when the name is non-empty and `x` is that string |
| Agent.Decoded | index.js:125-139 | no contract of its own; UnparsedReplyChangesNothing and ParsedReplyLoggedFirst state how the iteration uses it, and the ReplyDecoding lemmas state the cleaning it applies |
| Agent.Dispatch | index.js:158-190 | an action adds at most one observe entry and at most one effect, only appends, and never halts the loop; it changes nothing for an unknown tool, for an `execCommand` whose `input` cannot be converted to text, or for a write Node rejects; and it records a tool call exactly when `execCommand` gets past its log line or Node accepts the write |
| Agent.Step | index.js:123-196 | one iteration only appends, adding at most two entries and one effect, and halts exactly when the decoded reply's `step` is "output" |
| Agent.UnparsedReplyChangesNothing | index.js:125-139 | an iteration leaves the state unchanged exactly when the reply never arrives or does not parse |
| Agent.ParsedReplyLoggedFirst | index.js:139-148 | a parsed reply's serialisation is the first entry an iteration appends |
| Agent.NonActionLogsOnly | index.js:150-156 | a `null`, think, output or step-less reply adds its model entry and starts no effect |
| Agent.ExecActionObserved | index.js:161-174 | an `execCommand` action whose `input` cannot be converted to text adds only its model entry; otherwise it starts the command with that `input`, a resolved command adds one observe entry with the labelled streams, and a rejected one adds none; the loop goes on |
| Agent.WriteActionObserved | index.js:175-186 | a `writeInFile` action that Node accepts starts the write; it adds the observe entry "Data written into " + the file name unless converting the file name throws; a synchronous throw starts nothing and adds nothing after the model entry; the loop goes on |
| Agent.WriteObservationNamesFile | index.js:184 | for a string file name the conversion succeeds and the observation text is "Data written into " followed by that name |
| Agent.UnknownToolIgnored | index.js:158-190 | an action naming any other tool adds its model entry and nothing else |
| Agent.RunAll | index.js:122-197 | no contract of its own; RunOnlyAppends, RunHaltsIffOutput, RunAllAppend, RunIgnoresRoundsAfterOutput and ConsumedStopsAtFirstOutput state its properties |
| Agent.RunOnlyAppends | index.js:122-197 | a run only appends to the transcript and to the effects, at most two entries per round |
| Agent.RunHaltsIffOutput | index.js:154-155 | a run ends halted exactly when it was halted already or some round replies with step "output" |
| Agent.RunAllAppend | index.js:122-197 | running two lists of rounds one after the other is running their concatenation |
| Agent.RunIgnoresRoundsAfterOutput | index.js:154-155 | rounds after the first "output" reply do not affect the state |
| Agent.ConsumedStopsAtFirstOutput | index.js:154-155 | a run reads no round after the first one that replies "output": no round before the last one read halts, and the last one read halts unless the rounds ran out |
| Agent.AgentLoop.constructor | index.js:106-115 | the transcript starts as the single user entry holding the system prompt, a blank line, "Query: " and the query |
| Agent.AgentLoop.Iterate | index.js:123-196 | one pass of the loop body updates the transcript, the effects and the halted flag exactly as `Step` does, and keeps the seeded entry first |
| Agent.AgentLoop.Run | index.js:122-197 | iterating until the loop halts or the rounds run out leaves the state `RunAll` computes, and the number of rounds read is `Consumed`, which stops at the first "output" reply |

## Left out

- The Gemini SDK (`getGenerativeModel`, `startChat`, `sendMessage`) is not modelled. Its answer is an input of each round.
- The chat session is handed `messages` itself as its history. The SDK's `ChatSession` is not part of this model. It keeps that array and, on every answered `sendMessage`, pushes the "Continue" turn and the response onto it before index.js:141 runs. So in the program a reply that fails to parse still adds two entries. The model's transcript holds only the loop's own pushes. `Step`'s "at most two entries" and `UnparsedReplyChangesNothing` are about those pushes only.
- `exec` and `fs.writeFile` are not modelled. Only what they answer is an input. The effects list records each `execCommand` call that gets past the log line at index.js:164, and each `writeInFile` call whose `fs.writeFile` accepts its arguments. It does not record what the shell or the filesystem did. A call of `execCommand` with an `input` that `exec` rejects before launching anything, such as `undefined` or "", is still recorded.
- The JSON grammar is not modelled. `JSON.parse` and `JSON.stringify` are parameters. A number is kept as its canonical JavaScript rendering; number formatting itself is not modelled.
- `async`/`await` and promise scheduling are not modelled. An awaited call is treated as finishing within its iteration.
- `while (true)` is unbounded; the model runs over a finite list of rounds.
- Console output (`console.log`, `console.error`) and the prompt text (`SYSTEM_PROMPT`, `userQuery`) are not modelled. The one place logging affects the state is modelled: building the text at index.js:164 can throw.
- Whether `exec` rejects is an input of each round. That includes Node rejecting a command that is not a non-empty string.
- Whether Node's `fs.writeFile` throws on a non-string file name or data is an input of each round. It is not derived from the argument types.
- The `TOOLS_MAP` lookup is modelled by the two names it holds. Its function table is not modelled.
- JavaScript strings are sequences of UTF-16 code units; here a character is a Unicode scalar value. A reply holding a lone surrogate (JSON `"\ud800"`) cannot be represented. Trim and the fence removal are unaffected: their patterns and whitespace characters are all in the Basic Multilingual Plane.
