# backlight: HTTP-to-MQTT color bridge, modelled in Dafny

The bridge turns HTTP requests into commands for an LED backlight. Each
command is a string `set/<R>/<G>/<B>` published on the MQTT topic
`cmd/backlight1`. There are two endpoints:

- `POST /sandbox/api/set/:color`, with an `rgb` query when the color is `custom`;
- `POST /sandbox/api/webhook`, with a JSON body `{key, color, action}`. Here
  `action` carries the comma-separated triple when the color is `custom`.

Both endpoints hand a color name and an RGB slice to `handleColor`. That
function is a switch over six names: `red`, `green`, `blue`, `purple`, `off`
and `custom`. It has no default case.

The project has five modules:

- `GoStrings` (go_strings.dfy): Go's `strings.Split` for a one-character
  separator. A string with k separators gives k + 1 parts, and the empty string
  gives one empty part. The module also has `Join` as the inverse of `Split`,
  with both round trips proved.
- `Translator` (translator.dfy): the switch of `handleColor` as the function
  `Command`. `Levels` is an independent table of the three channel fields. The
  lemmas prove that the switch agrees with the table, and that the device can
  split a command back into `set` and its three fields.
- `Handlers` (handlers.dfy): what each HTTP handler decides, as pure
  functions from a request to an `Effect`. An `Effect` is the response (or the
  panic) plus the publications made. The lemmas state the properties of these
  functions.
- `Bridge` (bridge.dfy): the shared MQTT client as a class whose field `sent`
  logs every publication. `Publish`, `HandleColor`, `HandleSet` and
  `HandleWebhook` are methods that modify the client. Each one is proved to
  append exactly the publications its pure decision names.
- `Wrappers` (wrappers.dfy): `Option`.

`handleColor` indexes `rgb[0]`, `rgb[1]` and `rgb[2]` in its `custom` case.
`Bridge.HandleColor` therefore requires `RgbInBounds`: `custom` needs at least
three parts. `HandleSet` meets that requirement because it checks for exactly
three parts first. `HandleWebhook` does not check. Its model therefore tests
the bound explicitly, in the place of the Go runtime's bounds check, and ends
in `IndexOutOfRange` when the bound fails. `WebhookEffect` states exactly when
that happens: the color is `custom` and the action has fewer than two commas.

Repeating a request gives the same result each time. This follows from the
contracts of `Bridge.HandleSet` and `Bridge.HandleWebhook`: each appends
`SetEffect(...).published` or `WebhookEffect(...).published`, and both depend
only on the request. So N identical requests append N identical publications
and change nothing else.

Two behaviours of the code are easy to misread:

- The set handler rejects a custom query unless it has exactly three parts
  (main.go:85). It rejects four or more parts too, not only fewer than three.
- There is no 500 path. `publish` waits on the token and discards its error
  (main.go:120-121).

## Model

| member | source | states |
|---|---|---|
| GoStrings.Split | main.go:84 | `strings.Split` always returns at least one part |
| GoStrings.SplitLength | main.go:84-85 | a string with k commas splits into exactly k + 1 parts, so the `len(rgb) != 3` test is "not exactly two commas" |
| GoStrings.SplitPartsHaveNoSeparator | main.go:107 | no part of a split contains the separator |
| GoStrings.JoinSplit | main.go:84 | joining the parts with the separator gives the original string back (nothing is lost by splitting) |
| GoStrings.SplitJoin | main.go:107 | splitting a join of separator-free parts gives exactly those parts |
| GoStrings.JoinSplitReplaces | main.go:84 | splitting on ',' and joining with '/' replaces each comma by '/' |
| GoStrings.EmptySplitsToOnePart | main.go:84 | the empty (or missing) query splits to the single part `""` |
| GoStrings.SplitRgbQuery | main.go:84-85 | `"10,20,30"` splits to `["10","20","30"]` |
| Translator.Command | main.go:125-144 | the switch gives a command exactly for the six case labels and nothing for any other color |
| Translator.Levels | main.go:126-142 | reference table of the three channel fields: five fixed rows, and the first three parts verbatim for `custom` |
| Translator.ColorPublishes | main.go:124-145 | `handleColor` makes at most one publication, exactly one for a recognized color, and always on `cmd/backlight1` |
| Translator.CommandMatchesTable | main.go:125-144 | every command is `"set"` followed by the table's three levels, joined by '/' |
| Translator.CommandFields | main.go:141-142 | a command splits on '/' into `set` and its three levels whenever no level contains '/' |
| Translator.FixedColorsPublishFixedStrings | main.go:126-140 | red, green, blue, purple and off publish `set/1020/0/0`, `set/0/1020/0`, `set/0/0/1020`, `set/1000/0/800`, `set/0/0/0`, whatever `rgb` holds |
| Translator.CustomIsVerbatim | main.go:141-142 | `custom` publishes `"set/" + r + "/" + g + "/" + b` and ignores parts after the third |
| Translator.CustomPartsNotValidated | main.go:142 | there is no numeric check: `["abc","","-7"]` publishes `set/abc//-7`, and a part holding '/' yields a five-field command |
| Handlers.SetRgb | main.go:82-84 | the slice passed on is empty except for `custom`, where it has one more part than the query has commas |
| Handlers.WebhookRgb | main.go:105-108 | the same for the webhook's `action` |
| Handlers.SetEffect | main.go:78-95 | the set handler never panics; it answers 400 "not enough parameters" and publishes nothing exactly when the color is custom and the query does not have two commas; otherwise it answers 200 "done" with at most one publication on `cmd/backlight1`, and one exactly for a recognized color |
| Handlers.WebhookEffect | main.go:96-113 | the webhook panics, with nothing published, exactly when the color is custom and the action has fewer than two commas; otherwise it answers 200 "OK" with at most one publication, and one exactly for a recognized color |
| Handlers.CheckedWebhookEffect | main.go:105-110 | corrected webhook: it never panics; it answers 400 with nothing published exactly when a custom action does not have two commas; otherwise it answers 200 "OK" |
| Handlers.SetCustomPayload | main.go:83-93 | an accepted custom query publishes `"set/"` followed by the query with its commas turned into '/' |
| Handlers.SetWellFormedQuery | main.go:83-93 | the query `"10,20,30"` answers 200 "done" and publishes `set/10/20/30` |
| Handlers.SetEmptyQueryRejected | main.go:83-88 | custom with an empty or missing query answers 400 and publishes nothing |
| Handlers.WebhookCannotEstablishBounds | main.go:105-109 | a custom action with fewer than two commas splits into too few parts for `handleColor`'s custom case |
| Handlers.WebhookShortActionsPanic | main.go:106-109 | the actions `""` and `"10,20"` panic |
| Handlers.WebhookUsesFirstThreeParts | main.go:106-110 | an action with two or more commas answers 200 "OK" and publishes its first three parts verbatim |
| Handlers.WebhookMatchesSet | main.go:105-110 | for every color other than custom, the webhook publishes what the set handler publishes |
| Handlers.WebhookExamples | main.go:98-110 | a body left empty by a failed bind still answers 200 "OK" and publishes nothing; `off` publishes `set/0/0/0`, the same as the set endpoint |
| Handlers.CheckedWebhookAgrees | main.go:105-110 | the corrected webhook never panics, publishes what the set handler would for the same color and triple, and matches the as-written webhook whenever that one answers with a well-formed triple |
| Bridge.Publish | main.go:119-122 | appends exactly one publication (topic, message) to the client's log |
| Bridge.HandleColor | main.go:124-145 | requires the custom case's three parts; appends the publications of `ColorPublishes`, so nothing for an unknown color and one publication on `cmd/backlight1` for a recognized one |
| Bridge.HandleSet | main.go:78-95 | answers `SetEffect`'s response and appends exactly its publications; proving the call to `HandleColor` shows the length check establishes the bound |
| Bridge.HandleWebhook | main.go:96-113 | ends with `WebhookEffect`'s outcome and appends exactly its publications |

## Findings

| source | as written | input that shows it | evidently intended | confidence | as-written member | corrected member |
|---|---|---|---|---|---|---|
| main.go:105-109 | the webhook passes `strings.Split(body.Action, ",")` to `handleColor` without a length check, and the custom case indexes `rgb[0..2]` | `{"color":"custom","action":""}` or `"action":"10,20"`: the index is out of range and the handler panics | reject a custom action that is not a triple, as the set handler does at main.go:85-88 | high that the panic is unintended; the 400 answer is a guess; not executed | Handlers.WebhookShortActionsPanic | Handlers.CheckedWebhookAgrees |

`Bridge.HandleWebhook` models the code as written. `Handlers.CheckedWebhookEffect` is the corrected decision.

## Left out

- Gin engine setup, release mode, CORS, route groups and the `endless` listener (main.go:43-55, 71-76, 115-116): these are framework and network I/O.
- The recovery middleware of `gin.Default()` turns a handler panic into a 500 response. That is framework behaviour, so the model stops at `IndexOutOfRange`.
- MQTT client options, broker address, connection, the panic when connecting fails, and the three callbacks (main.go:22-32, 57-69): these are foreign-library calls and console output.
- `client.Publish` and `token.Wait()` (main.go:120-121): this is a blocking network call whose error is discarded. `Publish` is an append to the log, with no delivery or QoS semantics.
- JSON decoding by `ShouldBindJSON` (main.go:99): the handler takes an already decoded `WebHookReq`. A failed bind only prints a message, so the handler goes on with whatever fields were filled. The `key` field is never read.
- Gin's `c.Param` and `c.Query`: the handlers take the color and the query value as strings, with a missing query given as `""`, as `c.Query` returns it.
- The `PORT` environment lookup and every `fmt.Println` (main.go:39-42, 89, 97, 101, 111, 115): these are environment and console I/O.
- Concurrency between requests: the server framework schedules requests, and the model treats one request at a time.
- `GoStrings.Split` covers only one-character separators. Go's special case for an empty separator is never used here.
- Go strings are byte strings, and the model uses `seq<char>`. Every literal and both separators (',' and '/') are ASCII, so no split or comparison here differs.
