/**
 * The scenarios of irctk's client tests, replayed against the model.
 *
 * Each line a test feeds the client is shown to parse into the message it stands
 * for, each such message is shown to take the client's state where the test
 * expects, and each scenario method drives a fresh client through the test's
 * steps and states the test's assertions as its postcondition.
 */
module ClientScenarios {
  import opened Wrappers
  import opened Text
  import Identity
  import Messages
  import opened Capabilities
  import opened Modes
  import opened IrcClient

  /** A word that can stand as a command or middle parameter, with no line break in it. */
  predicate Plain(w: string) {
    Messages.IsToken(w) && Messages.NoBreaks(w)
  }

  /** A word that can stand as a message prefix. */
  predicate PlainPrefix(p: string) {
    ' ' !in p && Messages.NoBreaks(p)
  }

  // The registration test.

  const WelcomeLine := ":irc.kylefuller.co.uk 001 kyle :Welcome"

  function Welcome(): Messages.Message {
    Messages.Message(Some("irc.kylefuller.co.uk"), "001", ["kyle"], Some("Welcome"))
  }

  lemma WelcomeWellFormed()
    ensures Messages.WellFormed(Welcome())
  {
    NumericsArePlain();
    TargetsArePlain();
    ServerIsPrefix();
    TrailingsHaveNoBreaks();
  }

  lemma WelcomeParses()
    ensures Messages.Parse(WelcomeLine) == Success(Welcome())
  {
    WelcomeWellFormed();
    assert ["kyle"][1..] == [];
    WelcomeSpelling();
    Messages.ParseFormat(Welcome());
  }

  /** Numeric 001 registers the client and changes nothing else. */
  lemma WelcomeStep(s: State)
    ensures Step(s, WelcomeLine) == s.(registered := true)
  {
    WelcomeParses();
  }

  // The ping test.

  const PingLine := "PING :hello"

  lemma PingParses()
    ensures Messages.Parse(PingLine) == Success(Messages.Message(None, "PING", [], Some("hello")))
  {
    var m := Messages.Message(None, "PING", [], Some("hello"));
    PingWellFormed();
    PingSpelling();
    Messages.ParseFormat(m);
  }

  lemma PingWellFormed()
    ensures Messages.WellFormed(Messages.Message(None, "PING", [], Some("hello")))
  {
    PingIsPlain();
    TrailingsHaveNoBreaks();
  }

  /** A PING is answered with a PONG carrying its token, and nothing else changes. */
  lemma PingStep(s: State)
    ensures Step(s, PingLine) == s.(sent := s.sent + ["PONG hello"])
  {
    PingParses();
    CommandsDiffer();
    PongSpelling();
  }

  /** Any PING is answered with a PONG carrying its token, and nothing else changes. */
  lemma PingAnswered(s: State, token: string)
    requires Messages.NoBreaks(token)
    ensures Step(s, "PING :" + token) == s.(sent := s.sent + ["PONG " + token])
  {
    var m := Messages.Message(None, "PING", [], Some(token));
    PingIsPlain();
    assert Messages.WellFormed(m);
    assert Messages.Format(m) == "" + "PING" + (" :" + token);
    PingHeadSpelling();
    Associative("PING", " :", token);
    Messages.ParseFormat(m);
    assert Messages.Args(m) == [token];
    CommandsDiffer();
  }

  // The ISUPPORT test.

  const SupportLine := ":irc.kylefuller.co.uk 005 kyle :NICKLEN=5 CHANNELLEN=6"

  function Support(): Messages.Message {
    Messages.Message(Some("irc.kylefuller.co.uk"), "005", ["kyle"], Some("NICKLEN=5 CHANNELLEN=6"))
  }

  lemma SupportWellFormed()
    ensures Messages.WellFormed(Support())
  {
    NumericsArePlain();
    TargetsArePlain();
    ServerIsPrefix();
    SupportHasNoBreaks();
  }

  lemma SupportParses()
    ensures Messages.Parse(SupportLine) == Success(Support())
  {
    SupportWellFormed();
    assert ["kyle"][1..] == [];
    SupportSpelling();
    Messages.ParseFormat(Support());
  }

  /** The trailing parameter splits into the two advertised tokens. */
  lemma SupportWords()
    ensures SupportTokens(["NICKLEN=5 CHANNELLEN=6"]) == ["NICKLEN=5", "CHANNELLEN=6"]
  {
    var ws := ["NICKLEN=5", "CHANNELLEN=6"];
    assert IsWord("NICKLEN=5") && IsWord("CHANNELLEN=6");
    assert ws[1..] == ["CHANNELLEN=6"];
    assert Join(ws) == "NICKLEN=5" + " " + "CHANNELLEN=6";
    assert "NICKLEN=5" + " " + "CHANNELLEN=6" == "NICKLEN=5 CHANNELLEN=6";
    WordsJoin(ws);
    assert ["NICKLEN=5 CHANNELLEN=6"][1..] == [];
  }

  /** A 005 line stores its tokens in the ISUPPORT table and changes nothing else. */
  lemma SupportStep(s: State)
    ensures Step(s, SupportLine) == s.(isupport := Assign(s.isupport, ["NICKLEN=5", "CHANNELLEN=6"]))
  {
    SupportParses();
    CommandsDiffer();
    assert Messages.Args(Support())[1..] == ["NICKLEN=5 CHANNELLEN=6"];
    SupportWords();
  }

  /** Of two tokens, the later one decides a key they both name; otherwise the one naming it does. */
  lemma LimitOfPair(table: map<string, string>, first: string, second: string, key: string, n: nat, default: nat)
    requires KeyOf(first) == key || KeyOf(second) == key
    requires ParseNumber(ParseToken(if KeyOf(second) == key then second else first).value) == Some(n)
    ensures Limit(Assign(table, [first, second]), key, default) == n
  {
    var tokens := [first, second];
    if KeyOf(second) == key {
      AssignLastWins(table, tokens, key, 1);
    } else {
      AssignLastWins(table, tokens, key, 0);
    }
  }

  /** After the two tokens the nick limit reads back as 5, whatever the table held before. */
  lemma NickLimit(table: map<string, string>)
    ensures Limit(Assign(table, ["NICKLEN=5", "CHANNELLEN=6"]), "NICKLEN", DefaultNickLength) == 5
  {
    SupportTokensRead();
    SupportNumbersRead();
    LimitOfPair(table, "NICKLEN=5", "CHANNELLEN=6", "NICKLEN", 5, DefaultNickLength);
  }

  /** After the two tokens the channel limit reads back as 6, whatever the table held before. */
  lemma ChannelLimit(table: map<string, string>)
    ensures Limit(Assign(table, ["NICKLEN=5", "CHANNELLEN=6"]), "CHANNELLEN", DefaultChannelLength) == 6
  {
    SupportTokensRead();
    SupportNumbersRead();
    LimitOfPair(table, "NICKLEN=5", "CHANNELLEN=6", "CHANNELLEN", 6, DefaultChannelLength);
  }

  /** Each token names its key and carries its value. */
  lemma SupportTokensRead()
    ensures ParseToken("NICKLEN=5") == Token("NICKLEN", "5")
    ensures ParseToken("CHANNELLEN=6") == Token("CHANNELLEN", "6")
    ensures KeyOf("NICKLEN=5") == "NICKLEN" && KeyOf("CHANNELLEN=6") == "CHANNELLEN"
    ensures "NICKLEN" != "CHANNELLEN"
  {
    TokenSpelling();
    ParseTokenOfPair("NICKLEN", "5");
    ParseTokenOfPair("CHANNELLEN", "6");
  }

  lemma SupportNumbersRead()
    ensures ParseNumber("5") == Some(5) && ParseNumber("6") == Some(6)
  {
    ParseNumberDecimal(5);
    ParseNumberDecimal(6);
    assert Decimal(5) == "5" && Decimal(6) == "6";
  }

  // The channel mode tests.

  /** A MODE line as the channel tests send it: from `kyle!kyle@kyle`, for `#test`. */
  function ModeLine(modes: string, params: seq<string>): string {
    ":kyle!kyle@kyle MODE #test " + modes + Messages.Tail(params, None)
  }

  lemma ModeWellFormed(modes: string, params: seq<string>)
    requires Plain(modes) && forall p :: p in params ==> Plain(p)
    ensures Messages.WellFormed(Messages.Message(Some("kyle!kyle@kyle"), "MODE", ["#test", modes] + params, None))
  {
    ModeIsPlain();
    TargetsArePlain();
    KyleIsPrefix();
  }

  lemma ModeLineParses(modes: string, params: seq<string>)
    requires Plain(modes) && forall p :: p in params ==> Plain(p)
    ensures Messages.Parse(ModeLine(modes, params)) ==
      Success(Messages.Message(Some("kyle!kyle@kyle"), "MODE", ["#test", modes] + params, None))
  {
    var m := Messages.Message(Some("kyle!kyle@kyle"), "MODE", ["#test", modes] + params, None);
    ModeWellFormed(modes, params);
    ModeFormat(modes, params);
    Messages.ParseFormat(m);
  }

  lemma ModeFormat(modes: string, params: seq<string>)
    ensures Messages.Format(Messages.Message(Some("kyle!kyle@kyle"), "MODE", ["#test", modes] + params, None)) ==
      ModeLine(modes, params)
  {
    var m := Messages.Message(Some("kyle!kyle@kyle"), "MODE", ["#test", modes] + params, None);
    assert m.params[1..] == [modes] + params;
    assert ([modes] + params)[1..] == params;
    var t := Messages.Tail(params, None);
    assert Messages.Tail([modes] + params, None) == " " + modes + t;
    assert Messages.Tail(m.params, None) == " " + "#test" + Messages.Tail([modes] + params, None);
    assert Messages.Format(m) == ":" + "kyle!kyle@kyle" + " " + "MODE" + (" " + "#test" + (" " + modes + t));
    Regroup(":" + "kyle!kyle@kyle" + " ", "MODE", " ", "#test", " ", modes, t);
    ModePrefixSpelling();
  }

  /** A MODE line for the tracked `#test` applies its mode string to that channel's modes. */
  lemma ModeStep(s: State, modes: string, params: seq<string>)
    requires Plain(modes) && forall p :: p in params ==> Plain(p)
    requires "#test" in s.channels
    ensures Step(s, ModeLine(modes, params)) ==
      s.(channels := s.channels["#test" := Modes.Apply(s.channels["#test"], modes, params)])
  {
    var m := Messages.Message(Some("kyle!kyle@kyle"), "MODE", ["#test", modes] + params, None);
    ModeLineParses(modes, params);
    assert Step(s, ModeLine(modes, params)) == Handle(s, m);
    var args := Messages.Args(m);
    assert args == ["#test", modes] + params;
    assert args[0] == "#test" && args[1] == modes && args[2..] == params;
    CommandsDiffer();
    assert Handle(s, m) == ChangeModes(s, "#test", modes, params);
    TestChannelKey();
    assert Track(s, "#test") == s;
  }

  /** `+tn` sets both flags on a channel without modes, and `-tn` clears them again. */
  lemma FlagsOnAndOff()
    ensures Modes.Apply(map[], "+tn", []) == map['t' := On, 'n' := On]
    ensures Modes.Apply(map['t' := On, 'n' := On], "-tn", []) == map[]
  {
    assert "+tn"[1..] == "tn" && "tn"[1..] == "n" && "n"[1..] == "";
    assert "-tn"[1..] == "tn";
    assert KindOf('t') == Boolean && KindOf('n') == Boolean;
  }

  /** Two `+b` lines list both masks in order, and `-b cake` then leaves only the second. */
  lemma BansListed()
    ensures Modes.Apply(Modes.Apply(map[], "+b", ["cake"]), "+b", ["snake"]) == map['b' := Entries(["cake", "snake"])]
    ensures Modes.Apply(map['b' := Entries(["cake", "snake"])], "-b", ["cake"]) == map['b' := Entries(["snake"])]
  {
    ListAppends(map[], "cake");
    ListAppends(map['b' := Entries(["cake"])], "snake");
    assert [] + ["cake"] == ["cake"] && ["cake"] + ["snake"] == ["cake", "snake"];
    assert EntriesOf(map[], 'b') == [];
    var after := map['b' := Entries(["cake", "snake"])];
    ListRemovesFirst(after, "cake");
    assert RemoveFirst(["cake", "snake"], "cake") == ["snake"];
  }

  /** A second `+l` replaces the first limit. */
  lemma LimitReplaced()
    ensures Modes.Apply(Modes.Apply(map[], "+l", ["5"]), "+l", ["6"]) == map['l' := Value("6")]
  {
    ParameterReplaces(map[], "5", ["5"]);
    ParameterReplaces(map['l' := Value("5")], "6", ["6"]);
  }

  // The delegate test.

  const PrivateLine := ":bob!b@irc.kylefuller.co.uk PRIVMSG kylef :Hey"

  function Private(): Messages.Message {
    Messages.Message(Some("bob!b@irc.kylefuller.co.uk"), "PRIVMSG", ["kylef"], Some("Hey"))
  }

  lemma PrivateWellFormed()
    ensures Messages.WellFormed(Private())
  {
    PrivmsgIsPlain();
    TargetsArePlain();
    BobIsPrefix();
    TrailingsHaveNoBreaks();
  }

  lemma PrivateParses()
    ensures Messages.Parse(PrivateLine) == Success(Private())
  {
    PrivateWellFormed();
    assert ["kylef"][1..] == [];
    PrivateSpelling();
    Messages.ParseFormat(Private());
  }

  /** The sender mask reads back as bob, with user b on the server's host. */
  lemma BobParses()
    ensures Identity.Parse("bob!b@irc.kylefuller.co.uk") == Identity.Nick("bob", "b", "irc.kylefuller.co.uk")
  {
    var n := Identity.Nick("bob", "b", "irc.kylefuller.co.uk");
    assert Identity.Format(n) == "bob!b@irc.kylefuller.co.uk";
    Identity.ParseFormat(n);
  }

  /** The private message changes none of the client's state. */
  lemma PrivateStep(s: State)
    ensures Step(s, PrivateLine) == s
  {
    PrivateParses();
    CommandsDiffer();
  }

  /** The private message asks for exactly one delegate call, from bob, saying Hey. */
  lemma PrivateNotices()
    ensures LineNotices(PrivateLine) ==
      [PrivateMessage(Identity.Parse("bob!b@irc.kylefuller.co.uk"), "Hey")]
  {
    PrivateParses();
  }

  /**
   * Any PRIVMSG from a user, with a target and a text, asks for exactly one
   * delegate call carrying the parsed sender and the text, and changes none of
   * the client's state.
   */
  lemma PrivmsgForwarded(s: State, prefix: string, target: string, text: string)
    requires PlainPrefix(prefix) && Plain(target) && Messages.NoBreaks(text)
    ensures LineNotices(":" + prefix + " PRIVMSG " + target + " :" + text) ==
      [PrivateMessage(Identity.Parse(prefix), text)]
    ensures Step(s, ":" + prefix + " PRIVMSG " + target + " :" + text) == s
  {
    PrivmsgParses(prefix, target, text);
    PrivateMessageNoticed(s, Messages.Message(Some(prefix), "PRIVMSG", [target], Some(text)));
  }

  lemma PrivmsgParses(prefix: string, target: string, text: string)
    requires PlainPrefix(prefix) && Plain(target) && Messages.NoBreaks(text)
    ensures Messages.Parse(":" + prefix + " PRIVMSG " + target + " :" + text) ==
      Success(Messages.Message(Some(prefix), "PRIVMSG", [target], Some(text)))
  {
    var m := Messages.Message(Some(prefix), "PRIVMSG", [target], Some(text));
    PrivmsgIsPlain();
    assert Messages.WellFormed(m);
    PrivmsgFormat(prefix, target, text);
    Messages.ParseFormat(m);
  }

  lemma PrivmsgFormat(prefix: string, target: string, text: string)
    ensures Messages.Format(Messages.Message(Some(prefix), "PRIVMSG", [target], Some(text))) ==
      ":" + prefix + " PRIVMSG " + target + " :" + text
  {
    var m := Messages.Message(Some(prefix), "PRIVMSG", [target], Some(text));
    assert [target][1..] == [];
    assert Messages.Tail([], Some(text)) == " :" + text;
    assert Messages.Tail([target], Some(text)) == " " + target + (" :" + text);
    assert Messages.Format(m) == ":" + prefix + " " + "PRIVMSG" + (" " + target + (" :" + text));
    PrivmsgHeadSpelling();
    RegroupMessage(":" + prefix, " ", "PRIVMSG", target, " :" + text);
    Associative(":" + prefix + " PRIVMSG " + target, " :", text);
  }

  // The scenarios, one per test of the client test class.

  /** The test fixture: a client for kylef (ident kyle, real name Kyle Fuller) with a delegate. */
  method SetUp() returns (client: Client, delegate: Delegate)
    ensures fresh(client) && fresh(delegate) && fresh(client.Repr)
    ensures client.Valid() && client.View() == Initial()
    ensures client.channels == map[] && client.delegate == delegate
    ensures client.Nickname() == "kylef" && client.Ident() == "kyle" && client.realname == "Kyle Fuller"
    ensures delegate.privateMessages == []
  {
    client := new Client("kylef", "kyle", "Kyle Fuller");
    client.nick := client.nick.(nick := "kylef");
    delegate := new Delegate();
    client.SetDelegate(delegate);
  }

  method HasNickname() returns (nickname: string)
    ensures nickname == "kylef"
  {
    var client, _ := SetUp();
    nickname := client.Nickname();
  }

  method HasIdent() returns (ident: string)
    ensures ident == "kyle"
  {
    var client, _ := SetUp();
    ident := client.Ident();
  }

  method HasRealname() returns (realname: string)
    ensures realname == "Kyle Fuller"
  {
    var client, _ := SetUp();
    realname := client.realname;
  }

  method NotRegisteredByDefault() returns (registered: bool)
    ensures !registered
  {
    var client, _ := SetUp();
    registered := client.isRegistered;
  }

  method RegisteredAfterWelcome() returns (registered: bool)
    ensures registered
  {
    var client, _ := SetUp();
    WelcomeStep(client.View());
    client.ReadData(":irc.kylefuller.co.uk 001 kyle :Welcome");
    registered := client.isRegistered;
  }

  method PongWhenPinged() returns (sent: seq<string>)
    ensures sent == ["PONG hello"]
  {
    var client, _ := SetUp();
    PingStep(client.View());
    client.ReadData("PING :hello");
    sent := client.sentLines;
  }

  method SupportParsed() returns (nickLength: nat, channelLength: nat)
    ensures nickLength == 5 && channelLength == 6
  {
    var client, _ := SetUp();
    SupportStep(client.View());
    NickLimit(map[]);
    ChannelLimit(map[]);
    client.ReadData(":irc.kylefuller.co.uk 005 kyle :NICKLEN=5 CHANNELLEN=6");
    nickLength := client.isupport.MaximumNickLength();
    channelLength := client.isupport.MaximumChannelLength();
  }

  /** A fixture client tracking `#test`, which has no modes yet. */
  method SetUpChannel() returns (client: Client, channel: Channel)
    ensures fresh(client.Repr) && client.Valid()
    ensures client.channels == map["#test" := channel] && channel.modes == map[]
  {
    var delegate;
    client, delegate := SetUp();
    TestChannelKey();
    channel := client.AddChannel("#test");
  }

  /** Read a MODE line for `#test` and follow its effect on the channel object. */
  method ReadModeLine(client: Client, channel: Channel, line: string, modes: string, params: seq<string>)
    requires client.Valid() && "#test" in client.channels && client.channels["#test"] == channel
    requires line == ModeLine(modes, params)
    requires Plain(modes) && forall p :: p in params ==> Plain(p)
    modifies client.Repr
    ensures client.Valid() && fresh(client.Repr - old(client.Repr))
    ensures "#test" in client.channels && client.channels["#test"] == channel
    ensures channel.modes == Modes.Apply(old(channel.modes), modes, params)
  {
    ModeStep(client.View(), modes, params);
    client.ReadData(line);
  }

  method ChannelNewMode() returns (modes: ModeTable)
    ensures 't' in modes && modes['t'] == On && 'n' in modes && modes['n'] == On
  {
    var client, channel := SetUpChannel();
    ModeWordsArePlain();
    FlagLinesSpelling();
    ReadModeLine(client, channel, ":kyle!kyle@kyle MODE #test +tn", "+tn", []);
    FlagsOnAndOff();
    modes := channel.modes;
  }

  method ChannelRemoveMode() returns (modes: ModeTable)
    ensures modes == map[]
  {
    var client, channel := SetUpChannel();
    ModeWordsArePlain();
    FlagLinesSpelling();
    ReadModeLine(client, channel, ":kyle!kyle@kyle MODE #test +tn", "+tn", []);
    ReadModeLine(client, channel, ":kyle!kyle@kyle MODE #test -tn", "-tn", []);
    FlagsOnAndOff();
    modes := channel.modes;
  }

  method SettingListMode() returns (modes: ModeTable)
    ensures 'b' in modes && modes['b'] == Entries(["cake", "snake"])
  {
    var client, channel := SetUpChannel();
    ModeWordsArePlain();
    ListLinesSpelling();
    ReadModeLine(client, channel, ":kyle!kyle@kyle MODE #test +b cake", "+b", ["cake"]);
    ReadModeLine(client, channel, ":kyle!kyle@kyle MODE #test +b snake", "+b", ["snake"]);
    BansListed();
    modes := channel.modes;
  }

  method RemovingListMode() returns (modes: ModeTable)
    ensures 'b' in modes && modes['b'] == Entries(["snake"])
  {
    var client, channel := SetUpChannel();
    ModeWordsArePlain();
    ListLinesSpelling();
    ReadModeLine(client, channel, ":kyle!kyle@kyle MODE #test +b cake", "+b", ["cake"]);
    ReadModeLine(client, channel, ":kyle!kyle@kyle MODE #test +b snake", "+b", ["snake"]);
    ReadModeLine(client, channel, ":kyle!kyle@kyle MODE #test -b cake", "-b", ["cake"]);
    BansListed();
    modes := channel.modes;
  }

  method ParameterMode() returns (modes: ModeTable)
    ensures 'l' in modes && modes['l'] == Value("6")
  {
    var client, channel := SetUpChannel();
    ModeWordsArePlain();
    LimitLinesSpelling();
    ReadModeLine(client, channel, ":kyle!kyle@kyle MODE #test +l 5", "+l", ["5"]);
    ReadModeLine(client, channel, ":kyle!kyle@kyle MODE #test +l 6", "+l", ["6"]);
    LimitReplaced();
    modes := channel.modes;
  }

  method ForwardsPrivateMessages() returns (client: Client, received: seq<(Client, Identity.Nick, string)>)
    ensures received == [(client, Identity.Parse("bob!b@irc.kylefuller.co.uk"), "Hey")]
  {
    var delegate;
    client, delegate := SetUp();
    PrivateStep(client.View());
    PrivateNotices();
    DeliveredSingle(client, PrivateMessage(Identity.Parse("bob!b@irc.kylefuller.co.uk"), "Hey"));
    client.ReadData(PrivateLine);
    received := delegate.privateMessages;
  }

  // Lexical helpers. Each spells out one fact about the literal words and lines
  // used above: that a word can stand as a command or parameter, how a line
  // splits into the pieces `Format` writes, how a concatenation regroups. They
  // model nothing of the client; they keep each literal fact in a proof of its own.

  lemma NumericsArePlain()
    ensures Plain("001") && Plain("005") && Upper("001") == "001" && Upper("005") == "005"
  {
    UpperFixesUppercase("001");
    UpperFixesUppercase("005");
  }

  lemma PingIsPlain()
    ensures Plain("PING") && Upper("PING") == "PING"
  {
    UpperFixesUppercase("PING");
  }

  lemma ModeIsPlain()
    ensures Plain("MODE") && Upper("MODE") == "MODE"
  {
    UpperFixesUppercase("MODE");
  }

  lemma PrivmsgIsPlain()
    ensures Plain("PRIVMSG") && Upper("PRIVMSG") == "PRIVMSG"
  {
    var w := "PRIVMSG";
    assert forall i :: 0 <= i < |w| ==> w[i] != ' ' && w[i] != ':' && w[i] != '\r' && w[i] != '\n';
    PrivmsgIsUppercase();
  }

  lemma PrivmsgIsUppercase()
    ensures Upper("PRIVMSG") == "PRIVMSG"
  {
    var w := "PRIVMSG";
    assert forall i :: 0 <= i < |w| ==> !IsLowerLetter(w[i]);
    UpperFixesUppercase(w);
  }

  /** The commands the scenarios send are told apart by the dispatcher. */
  lemma CommandsDiffer()
    ensures "001" != "PING" && "001" != "005" && "001" != "MODE" && "001" != "PRIVMSG"
    ensures "PING" != "005" && "PING" != "MODE" && "PING" != "PRIVMSG"
    ensures "005" != "MODE" && "005" != "PRIVMSG" && "MODE" != "PRIVMSG"
  {
    assert "001"[2] != "005"[2];
    assert "PING"[0] != "MODE"[0];
  }

  lemma TargetsArePlain()
    ensures Plain("kyle") && Plain("kylef") && Plain("#test")
  {
  }

  lemma ModeWordsArePlain()
    ensures Plain("+tn") && Plain("-tn") && Plain("+b") && Plain("-b") && Plain("+l")
    ensures Plain("cake") && Plain("snake") && Plain("5") && Plain("6")
  {
  }

  lemma ServerIsPrefix()
    ensures PlainPrefix("irc.kylefuller.co.uk")
  {
  }

  lemma KyleIsPrefix()
    ensures PlainPrefix("kyle!kyle@kyle")
  {
  }

  lemma BobIsPrefix()
    ensures PlainPrefix("bob!b@irc.kylefuller.co.uk")
  {
  }

  lemma TrailingsHaveNoBreaks()
    ensures Messages.NoBreaks("Welcome") && Messages.NoBreaks("hello") && Messages.NoBreaks("Hey")
  {
  }

  lemma SupportHasNoBreaks()
    ensures Messages.NoBreaks("NICKLEN=5 CHANNELLEN=6")
  {
  }

  /** `#test` is its own case-folded channel key. */
  lemma TestChannelKey()
    ensures Lower("#test") == "#test"
  {
    LowerFixesLowercase("#test");
  }

  lemma WelcomeSpelling()
    ensures WelcomeLine == (":" + "irc.kylefuller.co.uk" + " ") + "001" + (" " + "kyle" + (" :" + "Welcome"))
  {
    assert " " + "kyle" + (" :" + "Welcome") == " kyle :Welcome";
    ServerPrefixSpelling();
  }

  lemma PingSpelling()
    ensures PingLine == "" + "PING" + (" :" + "hello")
  {
  }

  lemma PongSpelling()
    ensures "PONG " + "hello" == "PONG hello"
  {
  }

  lemma PingHeadSpelling()
    ensures "" + "PING" == "PING" && "PING" + " :" == "PING :"
  {
  }

  lemma SupportSpelling()
    ensures SupportLine ==
      (":" + "irc.kylefuller.co.uk" + " ") + "005" + (" " + "kyle" + (" :" + "NICKLEN=5 CHANNELLEN=6"))
  {
    SupportTailSpelling();
    ServerPrefixSpelling();
    assert SupportLine == ":irc.kylefuller.co.uk " + "005" + " kyle :NICKLEN=5 CHANNELLEN=6";
  }

  lemma SupportTailSpelling()
    ensures " " + "kyle" + (" :" + "NICKLEN=5 CHANNELLEN=6") == " kyle :NICKLEN=5 CHANNELLEN=6"
  {
  }

  lemma ServerPrefixSpelling()
    ensures ":" + "irc.kylefuller.co.uk" + " " == ":irc.kylefuller.co.uk "
  {
  }

  lemma TokenSpelling()
    ensures "NICKLEN" + "=" + "5" == "NICKLEN=5" && '=' !in "NICKLEN"
    ensures "CHANNELLEN" + "=" + "6" == "CHANNELLEN=6" && '=' !in "CHANNELLEN"
  {
  }

  lemma ModePrefixSpelling()
    ensures ":" + "kyle!kyle@kyle" + " " + "MODE" + " " + "#test" + " " == ":kyle!kyle@kyle MODE #test "
  {
  }

  /** Concatenation regrouped: the line's fixed head, then the mode string, then its parameters. */
  lemma Regroup(a: string, b: string, c: string, d: string, e: string, x: string, y: string)
    ensures a + b + (c + d + (e + x + y)) == (a + b + c + d + e) + x + y
  {
    var p := a + b;
    Associative(c + d, e + x, y);
    Associative(c + d, e, x);
    Associative(p, c + d + e + x, y);
    Associative(p, c + d + e, x);
    Associative(p, c + d, e);
    Associative(p, c, d);
  }

  lemma Associative(p: string, q: string, r: string)
    ensures p + (q + r) == p + q + r
  {
  }

  lemma FlagLinesSpelling()
    ensures ModeLine("+tn", []) == ":kyle!kyle@kyle MODE #test +tn"
    ensures ModeLine("-tn", []) == ":kyle!kyle@kyle MODE #test -tn"
  {
  }

  lemma ListLinesSpelling()
    ensures ModeLine("+b", ["cake"]) == ":kyle!kyle@kyle MODE #test +b cake"
    ensures ModeLine("+b", ["snake"]) == ":kyle!kyle@kyle MODE #test +b snake"
    ensures ModeLine("-b", ["cake"]) == ":kyle!kyle@kyle MODE #test -b cake"
  {
    assert ["cake"][1..] == [] && ["snake"][1..] == [];
  }

  lemma LimitLinesSpelling()
    ensures ModeLine("+l", ["5"]) == ":kyle!kyle@kyle MODE #test +l 5"
    ensures ModeLine("+l", ["6"]) == ":kyle!kyle@kyle MODE #test +l 6"
  {
    assert ["5"][1..] == [] && ["6"][1..] == [];
  }

  lemma PrivateSpelling()
    ensures PrivateLine == (":" + "bob!b@irc.kylefuller.co.uk" + " ") + "PRIVMSG" + (" " + "kylef" + (" :" + "Hey"))
  {
    PrivateTailSpelling();
    BobPrefixSpelling();
  }

  lemma PrivateTailSpelling()
    ensures " " + "kylef" + (" :" + "Hey") == " kylef :Hey"
  {
  }

  lemma BobPrefixSpelling()
    ensures ":" + "bob!b@irc.kylefuller.co.uk" + " " == ":bob!b@irc.kylefuller.co.uk "
  {
  }

  /** Concatenation regrouped: a head, a command between spaces, a target and a tail. */
  lemma RegroupMessage(h: string, sp: string, command: string, target: string, tail: string)
    ensures h + sp + command + (sp + target + tail) == h + (sp + command + sp) + target + tail
  {
    Associative(h + sp + command, sp + target, tail);
    Associative(h + sp + command, sp, target);
    Associative(h + sp, command, sp);
    Associative(h, sp, command);
    Associative(h, sp + command, sp);
  }

  lemma PrivmsgHeadSpelling()
    ensures " " + "PRIVMSG" + " " == " PRIVMSG "
  {
  }
}
