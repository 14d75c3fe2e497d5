# irctk client engine, modelled in Dafny

This project models the client-side IRC engine of irctk, as its client tests
(`irctk/tests/test_client.py`) pin it down. The engine reads raw protocol lines
one at a time through `read_data`:

- it parses each line into prefix, command, parameters and trailing parameter,
  following the message grammar of section 2.3.1 of RFC 1459;
- numeric `001` marks the client registered;
- `PING` is answered with `PONG <token>`, appended to the lines the client has sent;
- numeric `005` (ISUPPORT) stores `KEY=VALUE` tokens, and `NICKLEN` and `CHANNELLEN`
  are read back as the nick and channel length limits (9 and 200 until advertised);
- `MODE` applies a `+`/`-` mode string to a channel's mode table, in place:
  boolean flags (`t`, `n`), a parameterised letter whose latest value wins (`l`),
  and a list letter whose values are appended and removed one at a time (`b`);
- `PRIVMSG` hands `(client, sender identity, text)` to the delegate, where the
  sender is parsed from a `nick!user@host` prefix.

Layout, leaf modules first:

- `wrappers.dfy` (`Wrappers`): `Option` and `Result`.
- `text.dfy` (`Text`): first-index search, splitting on spaces, ASCII case mapping.
- `identity.dfy` (`Identity`): the `nick!user@host` identity.
- `messages.dfy` (`Messages`): line parsing and formatting.
- `isupport.dfy` (`Capabilities`): the ISUPPORT table, with the class `ISupport`
  that the client updates in place.
- `modes.dfy` (`Modes`): the channel mode algebra, with the class `Channel` whose
  `modes` a MODE line changes in place.
- `client.dfy` (`IrcClient`): the client as a value (`State`), its step function
  (`Step`), and the classes `Client` and `Delegate`. `Client.ReadData` is proved
  to change the client exactly as `Step` says, and to append exactly the calls
  `LineNotices` asks for to the delegate's record.
- `scenarios.dfy` (`ClientScenarios`): each test replayed. The test's literal
  lines are parsed, a fresh client is driven through them, and the test's
  assertions are the scenario method's postcondition.

The channel object that `add_channel` returns is the one later MODE lines change.
The model keeps that: `Client.channels` maps names to `Channel` objects, and a
scenario reads `channel.modes` from the object it got from `AddChannel`.

Two tests share the name `test_client_handles_removing_channel_list_mode`
(`irctk/tests/test_client.py:70` and `:77`). In Python the second definition
replaces the first, so the list-removal scenario at lines 70-75 is never
exercised by the test suite. The model states and proves it anyway
(`ClientScenarios.RemovingListMode`, `Modes.ListRemovesFirst`), since its
assertion is the intended behaviour.

The client's own code (`irctk/client.py`), the identity type (`irctk/nick.py`) and
the mock client the tests use (`irctk/tests/mock_client.py`) are not part of this
model. Where the tests are silent, the model chooses:

- a MODE line for a target that is not tracked yet starts tracking it;
- channel names are keyed case-insensitively (ASCII lower case);
- the sign of a mode string is `+` until a sign is given;
- a parameterised or list letter with no parameter left is skipped;
- `-l` takes a parameter and removes the letter whatever the value;
- removing a list value that is not listed changes nothing, and a list left empty
  unsets its letter;
- letters other than `b` and `l` are boolean flags;
- a 005 line's first parameter, the client's own nick, is skipped, and every
  other parameter, the trailing text included, is split on spaces and each word
  stored as a token;
- a bare ISUPPORT key is stored with the empty value;
- a limit whose value is not a decimal number falls back to the default;
- a line that does not parse, or whose command is not handled, is dropped;
- a PRIVMSG is forwarded whatever its target.

## Model

| member | source | states |
|---|---|---|
| Text.Words | irctk/tests/test_client.py:48 | the words of a parameter never include an empty word or a space |
| Text.WordsJoin | irctk/tests/test_client.py:48 | words joined with single spaces split back into the same words |
| Text.Lower | irctk/tests/test_client.py:53 | case-folds a channel name character by character, keeping its length; LowerChars, LowerFixesLowercase and LowerIdempotent characterise it |
| Text.Upper | irctk/tests/test_client.py:36 | normalises a command word character by character, keeping its length; UpperChars, UpperFixesUppercase and UpperIdempotent characterise it |
| Text.LowerChars | irctk/tests/test_client.py:53 | case-folding a channel name maps each character on its own and leaves no capital letter |
| Text.LowerFixesLowercase | irctk/tests/test_client.py:53 | a name without capitals, such as `#test`, is its own key |
| Text.UpperChars | irctk/tests/test_client.py:36 | normalising a command maps each character on its own and leaves no small letter |
| Text.LowerIdempotent | irctk/tests/test_client.py:53 | case-folding a channel key twice is folding it once, so a folded key stays its own key |
| Text.UpperIdempotent | irctk/tests/test_client.py:36 | normalising a command word twice is normalising it once |
| Identity.Parse | irctk/tests/test_client.py:88 | the nick holds no `!`; with a `!` the user holds no `@`; without a `!` the user and host are empty and the nick stops before any `@` |
| Identity.ParseFormat | irctk/tests/test_client.py:86-88 | an identity written as `nick!user@host` parses back to the same three parts |
| Identity.ParseMask | irctk/tests/test_client.py:88 | a full mask parses into the text before its first `!`, the text up to the next `@`, and the rest |
| Identity.FormatParse | irctk/tests/test_client.py:86-88 | a full mask parsed and written again is the same text |
| Identity.Format | irctk/tests/test_client.py:88 | writes an identity as `nick!user@host`; ParseFormat and FormatParse make it the inverse of Parse |
| Messages.StripTerminators | irctk/tests/test_client.py:36 | the result is a prefix of the line, every character cut is CR or LF, none remains at its end, and a line without breaks is unchanged |
| Messages.Tokenize | irctk/tests/test_client.py:42 | every word read before the trailing parameter is a non-empty, space-free word not opening with `:` |
| Messages.Parse | irctk/tests/test_client.py:36 | an empty line is the `EmptyLine` error; a parsed command is an upper-case token and every middle parameter is a token |
| Messages.Args | irctk/tests/test_client.py:48 | a message's arguments are its middle parameters then its trailing one |
| Messages.Format | irctk/tests/test_client.py:36 | writes a message as the optional `:prefix `, the command, each middle parameter after a space, and ` :trailing`; ParseFormat makes Parse its inverse on well-formed messages |
| Messages.TokenizeTail | irctk/tests/test_client.py:42 | the parameters and trailing part as `Format` writes them tokenise back into the same parameters and trailing part |
| Messages.ParseFormat | irctk/tests/test_client.py:36 | every well-formed message, once formatted, parses back to itself |
| Capabilities.ParseToken | irctk/tests/test_client.py:48 | splits a token at its first `=`, a bare token being a key with the empty value; ParseTokenSplits and ParseTokenOfPair characterise it |
| Capabilities.ParseTokenSplits | irctk/tests/test_client.py:48 | a token's key holds no `=`; a token with `=` is its key, `=`, and its value; a bare token is a key with the empty value |
| Capabilities.ParseTokenOfPair | irctk/tests/test_client.py:48 | `KEY=VALUE` reads back as key `KEY` and value `VALUE` |
| Capabilities.Assign | irctk/tests/test_client.py:47-50 | stores tokens in order, a later token overwriting an earlier one; AssignLastWins and AssignKeepsOthers characterise it |
| Capabilities.AssignLastWins | irctk/tests/test_client.py:47-50 | after a run of tokens, a key holds the value of the last token naming it |
| Capabilities.AssignKeepsOthers | irctk/tests/test_client.py:47-50 | a key no token names keeps its entry, or stays absent |
| Capabilities.ParseNumber | irctk/tests/test_client.py:49-50 | reads a value made only of decimal digits as a number and anything else as no number; ParseNumberDecimal makes Decimal its inverse |
| Capabilities.Decimal | irctk/tests/test_client.py:49-50 | a number's decimal form is a non-empty string of digits |
| Capabilities.ParseNumberDecimal | irctk/tests/test_client.py:49-50 | reading a number's decimal form gives the number back |
| Capabilities.Limit | irctk/tests/test_client.py:49-50 | the number the table holds for the key whenever its value reads as one; the default when the key is absent or its value is not a number |
| Capabilities.LimitAdvertised | irctk/tests/test_client.py:49-50 | a limit advertised in decimal reads back as that number, whatever was stored before |
| Capabilities.SupportTokens | irctk/tests/test_client.py:48 | the tokens taken from a 005 line's parameters are all non-empty, space-free words |
| Capabilities.ISupport.constructor | irctk/tests/test_client.py:8 | a new client's ISUPPORT table is empty |
| Capabilities.ISupport.Apply | irctk/tests/test_client.py:48 | storing a 005 line's tokens in place leaves the table as `Assign` of the old table and the tokens |
| Capabilities.ISupport.MaximumNickLength | irctk/tests/test_client.py:49 | the advertised `NICKLEN` whenever its value reads as a number; the default 9 when it is not advertised or not a number |
| Capabilities.ISupport.MaximumChannelLength | irctk/tests/test_client.py:50 | the advertised `CHANNELLEN` whenever its value reads as a number; the default 200 when it is not advertised or not a number |
| Modes.KindOf | irctk/tests/test_client.py:52-81 | `b` is a list letter, `l` a parameterised one, every other letter a boolean flag |
| Modes.ApplyLetter | irctk/tests/test_client.py:52-81 | one letter under the current sign: a flag is set or cleared, `l` takes the next parameter as its value or is cleared, `b` appends or removes the next parameter; ApplyLetterKeepsWellTyped, ParameterReplaces, ListAppends and ListRemovesFirst characterise it |
| Modes.Walk | irctk/tests/test_client.py:52-81 | a mode string read left to right, a sign switching the sign in force; WalkIsChanges, WalkLeavesOthers, WalkKeepsWellTyped and BooleanRun characterise it |
| Modes.Apply | irctk/tests/test_client.py:54-81 | a whole mode string with its parameters, under `+` until a sign is given; SameChangesSameModes, ApplySingle and the scenario lemmas characterise it |
| Modes.RemoveFirst | irctk/tests/test_client.py:74-75 | removing a value that is not listed changes nothing; otherwise the list is one shorter |
| Modes.RemoveFirstMultiset | irctk/tests/test_client.py:74-75 | exactly one copy of the value goes, when there is one, and nothing else |
| Modes.RemoveFirstSplits | irctk/tests/test_client.py:74-75 | the entry removed is the first one equal to the value, and the others keep their order |
| Modes.ApplyLetterKeepsWellTyped | irctk/tests/test_client.py:52-81 | one letter keeps every set mode in the shape its kind calls for, and never rewinds the parameters |
| Modes.WalkKeepsWellTyped | irctk/tests/test_client.py:52-81 | a whole mode string keeps flags on, parameters as values, and lists non-empty |
| Modes.WalkLeavesOthers | irctk/tests/test_client.py:52-56 | a letter the mode string does not mention keeps its state |
| Modes.Changes | irctk/tests/test_client.py:54 | the signed letters of a mode string are no more than its characters, and none of them is a sign |
| Modes.WalkIsChanges | irctk/tests/test_client.py:54-61 | reading a mode string is applying its signed letters in order |
| Modes.SameChangesSameModes | irctk/tests/test_client.py:54-61 | two mode strings with the same signed letters have the same effect, however their `+`/`-` runs are grouped |
| Modes.ApplySingle | irctk/tests/test_client.py:66-67 | a sign and one letter act as that letter alone under that sign |
| Modes.BooleanRun | irctk/tests/test_client.py:52-62 | a run of boolean letters under `+` sets exactly those letters on, and under `-` unsets exactly those letters; every other letter is unchanged |
| Modes.UnsetAbsentFlag | irctk/tests/test_client.py:61-62 | unsetting a boolean flag that is not set changes nothing |
| Modes.ParameterReplaces | irctk/tests/test_client.py:79-81 | `+l` with a value replaces any earlier value |
| Modes.ListAppends | irctk/tests/test_client.py:66-68 | `+b` with a value appends it after the listed entries and touches no other letter |
| Modes.ListRemovesFirst | irctk/tests/test_client.py:74-75 | `-b` with a value removes its first occurrence; the letter stays set exactly while entries remain; no other letter changes; an unlisted value changes nothing |
| Modes.MissingParameterSkips | irctk/tests/test_client.py:79 | a parameterised or list letter with no parameter left is skipped |
| Modes.Channel.constructor | irctk/tests/test_client.py:53 | a new channel has its name and no modes |
| Modes.Channel.ApplyModes | irctk/tests/test_client.py:54-56 | the channel's modes become `Apply` of its old modes and the mode string, changed in place |
| IrcClient.Handle | irctk/tests/test_client.py:35-88 | the effect of one parsed message: 001 registers, PING sends a PONG, 005 stores tokens, MODE changes a channel, anything else changes nothing; PrivateMessageNoticed and the Step lemmas characterise it |
| IrcClient.Step | irctk/tests/test_client.py:36 | reading one raw line, a line that does not parse changing nothing; RegisteredAfterStep, SendsOnlyOnPing, UnhandledLineIgnored, StepKeepsModesWellTyped, StepTouchesOneChannel, PingAnswered and PrivmsgForwarded characterise it |
| IrcClient.LineNotices | irctk/tests/test_client.py:85-88 | the delegate calls one raw line asks for; OnlyPrivmsgNotices says only a PRIVMSG line asks for any, and PrivmsgForwarded gives the call it asks for |
| IrcClient.Run | irctk/tests/test_client.py:35-37 | lines read in arrival order; RegisteredStays and RegisteredIffWelcomed characterise it |
| IrcClient.Track | irctk/tests/test_client.py:53 | tracks a channel under its folded name unless it is tracked already; TrackIdempotent characterises it |
| IrcClient.ChangeModes | irctk/tests/test_client.py:54 | a MODE line's effect: the target tracked if need be, then its modes changed by Apply; ChangeModesKeepsOthers characterises it |
| IrcClient.Notices | irctk/tests/test_client.py:85-88 | a message asks the delegate for at most one call, and only a PRIVMSG with a sender asks for one; PrivateMessageNoticed gives that call |
| IrcClient.OnlyPrivmsgNotices | irctk/tests/test_client.py:85-88 | a raw line asks the delegate for a call only when it parses as a PRIVMSG; 001, PING, 005, MODE and all other lines ask for none |
| IrcClient.PrivateMessageNoticed | irctk/tests/test_client.py:85-88 | a PRIVMSG with a sender, a target and a text asks for exactly one call, carrying the parsed sender and the text, and changes nothing |
| IrcClient.RegisteredAfterStep | irctk/tests/test_client.py:35-37 | after a line the client is registered exactly when it was before or the line is numeric 001 |
| IrcClient.RegisteredStays | irctk/tests/test_client.py:35-37 | once registered, the client stays registered whatever lines follow |
| IrcClient.RegisteredIffWelcomed | irctk/tests/test_client.py:32-37 | an unregistered client becomes registered over a run of lines exactly when one of them is numeric 001 |
| IrcClient.SendsOnlyOnPing | irctk/tests/test_client.py:41-43 | a line only appends to the sent lines, by at most one line, and only a PING appends |
| IrcClient.PrivateMessageKeepsState | irctk/tests/test_client.py:85-88 | a PRIVMSG changes none of the client's state |
| IrcClient.UnhandledLineIgnored | irctk/tests/test_client.py:36 | a line that does not parse or is not 001, PING, 005 or MODE changes nothing, and asks for no delegate call unless it is a PRIVMSG |
| IrcClient.StepKeepsModesWellTyped | irctk/tests/test_client.py:52-81 | every tracked channel's modes stay in the shape their letters' kinds call for |
| IrcClient.ChangeModesKeepsOthers | irctk/tests/test_client.py:53-54 | a MODE line keeps every channel tracked and changes only its target's modes |
| IrcClient.StepTouchesOneChannel | irctk/tests/test_client.py:52-56 | a line removes no channel and changes the modes of at most one of two channels |
| IrcClient.TrackIdempotent | irctk/tests/test_client.py:53 | tracking a channel twice is tracking it once; it is then tracked, and tracking a tracked channel changes nothing |
| IrcClient.Delegate.constructor | irctk/tests/test_client.py:12 | the delegate starts with no recorded private messages |
| IrcClient.Delegate.IrcPrivateMessage | irctk/tests/test_client.py:16-17 | a callback appends `(client, nick, message)` to the record |
| IrcClient.Client.Nickname | irctk/tests/test_client.py:21-22 | the nickname the client was constructed with; the constructor's contract and HasNickname state it |
| IrcClient.Client.Ident | irctk/tests/test_client.py:24-25 | the ident the client was constructed with; the constructor's contract and HasIdent state it |
| IrcClient.Client.constructor | irctk/tests/test_client.py:8 | the client keeps the nickname, ident and real name it is given, is not registered, has sent nothing, has an empty ISUPPORT table and tracks no channel |
| IrcClient.Client.SetDelegate | irctk/tests/test_client.py:10 | the delegate is set and nothing the client models changes |
| IrcClient.Client.AddChannel | irctk/tests/test_client.py:53 | the channel tracked under the name is returned, the existing one when there is one, else a fresh empty one; no other channel changes |
| IrcClient.Client.ApplyChannelModes | irctk/tests/test_client.py:54-56 | the modes of the channel object under a key change in place as `Apply` says, and the client's map still holds the same objects |
| IrcClient.Client.ChangeChannelModes | irctk/tests/test_client.py:54-56 | a MODE target's channel is tracked if need be and its modes change as `ChangeModes` says; no channel object is replaced |
| IrcClient.Client.Dispatch | irctk/tests/test_client.py:35-88 | acting on a message changes the client as `Handle` says and appends exactly the calls `Notices` asks for to the delegate |
| IrcClient.Client.ReadData | irctk/tests/test_client.py:36 | reading a line changes the client as `Step` says and appends exactly the calls `LineNotices` asks for to the delegate |
| ClientScenarios.WelcomeParses | irctk/tests/test_client.py:36 | the welcome line parses into prefix `irc.kylefuller.co.uk`, command `001`, parameter `kyle` and trailing `Welcome` |
| ClientScenarios.WelcomeStep | irctk/tests/test_client.py:35-37 | the welcome line registers the client and changes nothing else |
| ClientScenarios.PingParses | irctk/tests/test_client.py:42 | `PING :hello` parses into command `PING` with trailing `hello` |
| ClientScenarios.PingStep | irctk/tests/test_client.py:41-43 | `PING :hello` appends exactly `PONG hello` and changes nothing else |
| ClientScenarios.PingAnswered | irctk/tests/test_client.py:41-43 | any `PING :token` appends exactly `PONG token` and changes nothing else |
| ClientScenarios.SupportParses | irctk/tests/test_client.py:48 | the 005 line parses with trailing `NICKLEN=5 CHANNELLEN=6` |
| ClientScenarios.SupportWords | irctk/tests/test_client.py:48 | the trailing parameter splits into the tokens `NICKLEN=5` and `CHANNELLEN=6` |
| ClientScenarios.SupportStep | irctk/tests/test_client.py:47-48 | the 005 line stores those two tokens and changes nothing else |
| ClientScenarios.LimitOfPair | irctk/tests/test_client.py:47-50 | of two tokens, the later one naming a key decides its limit |
| ClientScenarios.NickLimit | irctk/tests/test_client.py:49 | after the two tokens the nick limit is 5, whatever the table held |
| ClientScenarios.ChannelLimit | irctk/tests/test_client.py:50 | after the two tokens the channel limit is 6, whatever the table held |
| ClientScenarios.ModeLineParses | irctk/tests/test_client.py:54 | a MODE line from `kyle!kyle@kyle` for `#test` parses into the target, the mode string and its parameters |
| ClientScenarios.ModeStep | irctk/tests/test_client.py:54 | such a line applies its mode string to the tracked `#test` channel and changes nothing else |
| ClientScenarios.FlagsOnAndOff | irctk/tests/test_client.py:54-62 | `+tn` on no modes sets `t` and `n`, and `-tn` then leaves no modes |
| ClientScenarios.BansListed | irctk/tests/test_client.py:64-75 | `+b cake` then `+b snake` list `['cake', 'snake']`, and `-b cake` then leaves `['snake']` |
| ClientScenarios.LimitReplaced | irctk/tests/test_client.py:77-81 | `+l 5` then `+l 6` leaves `l` at `6` |
| ClientScenarios.PrivateParses | irctk/tests/test_client.py:86 | the private message parses with prefix `bob!b@irc.kylefuller.co.uk`, target `kylef` and trailing `Hey` |
| ClientScenarios.BobParses | irctk/tests/test_client.py:88 | `bob!b@irc.kylefuller.co.uk` parses into nick `bob`, user `b`, host `irc.kylefuller.co.uk` |
| ClientScenarios.PrivateStep | irctk/tests/test_client.py:85-88 | the private message changes none of the client's state |
| ClientScenarios.PrivateNotices | irctk/tests/test_client.py:85-88 | the private message asks for exactly one delegate call, from the identity parsed from bob's mask, saying `Hey` |
| ClientScenarios.PrivmsgParses | irctk/tests/test_client.py:86 | any `:prefix PRIVMSG target :text` parses into that prefix, one target and that text |
| ClientScenarios.PrivmsgForwarded | irctk/tests/test_client.py:85-88 | any `:prefix PRIVMSG target :text` asks for exactly one delegate call, carrying the parsed prefix and the text, and changes none of the client's state |
| ClientScenarios.SetUp | irctk/tests/test_client.py:7-12 | the fixture client is fresh, unregistered, has sent nothing, tracks no channel, is named kylef / kyle / Kyle Fuller, and has a delegate with an empty record |
| ClientScenarios.HasNickname | irctk/tests/test_client.py:21-22 | the fixture's nickname is `kylef` |
| ClientScenarios.HasIdent | irctk/tests/test_client.py:24-25 | the fixture's ident is `kyle` |
| ClientScenarios.HasRealname | irctk/tests/test_client.py:27-28 | the fixture's real name is `Kyle Fuller` |
| ClientScenarios.NotRegisteredByDefault | irctk/tests/test_client.py:32-33 | a fresh client is not registered |
| ClientScenarios.RegisteredAfterWelcome | irctk/tests/test_client.py:35-37 | after the welcome line the client is registered |
| ClientScenarios.PongWhenPinged | irctk/tests/test_client.py:41-43 | after `PING :hello` the client has sent exactly `PONG hello` |
| ClientScenarios.SupportParsed | irctk/tests/test_client.py:47-50 | after the 005 line the nick limit is 5 and the channel limit is 6 |
| ClientScenarios.SetUpChannel | irctk/tests/test_client.py:53 | the fixture tracks `#test`, whose channel object has no modes |
| ClientScenarios.ReadModeLine | irctk/tests/test_client.py:54 | reading a MODE line for `#test` changes the very channel object `add_channel` returned |
| ClientScenarios.ChannelNewMode | irctk/tests/test_client.py:52-56 | after `+tn` the channel has `t` and `n` on |
| ClientScenarios.ChannelRemoveMode | irctk/tests/test_client.py:58-62 | after `+tn` and `-tn` the channel has no modes |
| ClientScenarios.SettingListMode | irctk/tests/test_client.py:64-68 | after `+b cake` and `+b snake` the channel lists `['cake', 'snake']` |
| ClientScenarios.RemovingListMode | irctk/tests/test_client.py:70-75 | after `+b cake`, `+b snake` and `-b cake` the channel lists `['snake']` |
| ClientScenarios.ParameterMode | irctk/tests/test_client.py:77-81 | after `+l 5` and `+l 6` the channel's `l` is `6` |
| ClientScenarios.ForwardsPrivateMessages | irctk/tests/test_client.py:85-88 | the delegate records exactly one call: the client, bob's parsed identity, and `Hey` |

## Left out

- The transport (socket, TLS, reconnection) and the outbound queue are not modelled. The lines the client sends are the sequence `Client.sentLines`, standing in for the mock client's `sent_lines`.
- The unittest harness is not modelled. The delegate is a `Delegate` object that records its callbacks in order, not a method looked up by name on an arbitrary object.
- `irctk/client.py`, `irctk/nick.py` and `irctk/tests/mock_client.py` are not part of this model. Nothing about `Nick` beyond splitting `nick!user@host` and structural equality is modelled.
- Channel names are folded with ASCII lower case only. The RFC 1459 case mapping of `{}|~` onto `[]\^` is not modelled, and neither are characters beyond what `#test` exercises.
- The mode-type table is fixed: `b` is a list, `l` is parameterised, and every other letter is a boolean flag. Seeding it from the `CHANMODES` ISUPPORT token is not modelled.
- ISUPPORT values are stored as strings and read as numbers when a limit is asked for. The `-KEY` negation form and tokens other than `NICKLEN` and `CHANNELLEN` are stored but not interpreted.
- Channel membership and the events that change it are not modelled: JOIN, PART, KICK, NICK, and delegate callbacks other than the private message.
- Numeric 001 only registers the client. Its parameters (the confirmed nickname, the welcome text) are not used.
- Characters are Dafny characters. No encoding or decoding of bytes is modelled.
- `Client.ReadData` and `Client.Dispatch` treat a message prefix as text and parse it as an identity only for PRIVMSG. A server-name prefix is never parsed.
