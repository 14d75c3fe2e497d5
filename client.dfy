/**
 * The client engine: registration state, outbound lines, the ISUPPORT table,
 * tracked channels and delegate callbacks, driven one raw line at a time.
 *
 * `State` and `Step` say what reading a line does; the `Client` class does it
 * in place and is proved to agree with `Step`.
 */
module IrcClient {
  import opened Wrappers
  import opened Text
  import Identity
  import Messages
  import opened Capabilities
  import opened Modes

  /** What a client holds, as values: channel modes are keyed by lower-cased channel name. */
  datatype State = State(
    registered: bool,
    sent: seq<string>,
    isupport: map<string, string>,
    channels: map<string, ModeTable>)

  /** A call the delegate receives. */
  datatype Notice = PrivateMessage(sender: Identity.Nick, message: string)

  /** A freshly constructed client: not registered, nothing sent, nothing advertised, no channel. */
  function Initial(): State {
    State(false, [], map[], map[])
  }

  /** The effect of one parsed message on the client's state. */
  function Handle(s: State, m: Messages.Message): State {
    var args := Messages.Args(m);
    if m.command == "001" then
      s.(registered := true)
    else if m.command == "PING" then
      if args == [] then s else s.(sent := s.sent + ["PONG " + args[0]])
    else if m.command == "005" then
      if args == [] then s else s.(isupport := Assign(s.isupport, SupportTokens(args[1..])))
    else if m.command == "MODE" then
      if |args| < 2 then s else ChangeModes(s, args[0], args[1], args[2..])
    else s
  }

  /** A MODE line for a target: the target's channel, created if need be, gets the mode string applied. */
  function ChangeModes(s: State, target: string, modeString: string, params: seq<string>): State {
    ApplyTracked(Track(s, target), Lower(target), modeString, params)
  }

  /** A mode string applied to the modes of the channel tracked under `key`. */
  function ApplyTracked(s: State, key: string, modeString: string, params: seq<string>): State
    requires key in s.channels
  {
    s.(channels := s.channels[key := Modes.Apply(s.channels[key], modeString, params)])
  }

  /** The delegate calls one parsed message asks for. */
  function Notices(m: Messages.Message): (ns: seq<Notice>)
    ensures |ns| <= 1
    ensures ns != [] ==> m.command == "PRIVMSG" && m.prefix.Some?
  {
    var args := Messages.Args(m);
    if m.command == "PRIVMSG" && m.prefix.Some? && |args| >= 2 then
      [PrivateMessage(Identity.Parse(m.prefix.value), args[1])]
    else []
  }

  /** Reading one raw line; a line that does not parse is dropped. */
  function Step(s: State, line: string): State {
    match Messages.Parse(line)
    case Failure(_) => s
    case Success(m) => Handle(s, m)
  }

  function LineNotices(line: string): seq<Notice> {
    match Messages.Parse(line)
    case Failure(_) => []
    case Success(m) => Notices(m)
  }

  /** Reading lines in arrival order. */
  function Run(s: State, lines: seq<string>): State
    decreases |lines|
  {
    if lines == [] then s else Run(Step(s, lines[0]), lines[1..])
  }

  /** Start tracking a channel unless it is already tracked. */
  function Track(s: State, name: string): State {
    var key := Lower(name);
    if key in s.channels then s else s.(channels := s.channels[key := map[]])
  }

  predicate IsCommand(line: string, command: string) {
    Messages.Parse(line).Success? && Messages.Parse(line).value.command == command
  }

  /** A client is registered after a line exactly when it was before or the line is numeric 001. */
  lemma RegisteredAfterStep(s: State, line: string)
    ensures Step(s, line).registered <==> s.registered || IsCommand(line, "001")
  {
  }

  /** Registration never reverts, whatever lines follow. */
  lemma {:induction false} RegisteredStays(s: State, lines: seq<string>)
    requires s.registered
    ensures Run(s, lines).registered
    decreases |lines|
  {
    if lines != [] {
      RegisteredAfterStep(s, lines[0]);
      RegisteredStays(Step(s, lines[0]), lines[1..]);
    }
  }

  /** From a fresh client, the lines read so far register it exactly when one of them is numeric 001. */
  lemma {:induction false} RegisteredIffWelcomed(s: State, lines: seq<string>)
    requires !s.registered
    ensures Run(s, lines).registered <==> exists i :: 0 <= i < |lines| && IsCommand(lines[i], "001")
    decreases |lines|
  {
    if lines != [] {
      var next := Step(s, lines[0]);
      RegisteredAfterStep(s, lines[0]);
      if next.registered {
        RegisteredStays(next, lines[1..]);
      } else {
        RegisteredIffWelcomed(next, lines[1..]);
        assert forall i :: 0 < i < |lines| ==> lines[i] == lines[1..][i - 1];
        if exists i :: 0 <= i < |lines[1..]| && IsCommand(lines[1..][i], "001") {
          var i :| 0 <= i < |lines[1..]| && IsCommand(lines[1..][i], "001");
          assert IsCommand(lines[i + 1], "001");
        }
      }
    }
  }

  /** Only a PING sends anything, and it appends one line. */
  lemma SendsOnlyOnPing(s: State, line: string)
    ensures s.sent <= Step(s, line).sent
    ensures |Step(s, line).sent| <= |s.sent| + 1
    ensures Step(s, line).sent != s.sent ==> IsCommand(line, "PING")
  {
  }

  /** A private message reaches the delegate and changes none of the client's state. */
  lemma PrivateMessageKeepsState(s: State, line: string)
    requires IsCommand(line, "PRIVMSG")
    ensures Step(s, line) == s
  {
  }

  /** A PRIVMSG with a sender, one target and a text asks for exactly one call, from the parsed sender, with that text. */
  lemma PrivateMessageNoticed(s: State, m: Messages.Message)
    requires m.command == "PRIVMSG" && m.prefix.Some? && |m.params| == 1 && m.trailing.Some?
    ensures Notices(m) == [PrivateMessage(Identity.Parse(m.prefix.value), m.trailing.value)]
    ensures Handle(s, m) == s
  {
    assert Messages.Args(m)[1] == m.trailing.value;
  }

  /** A line that does not parse, or whose command the client does not act on, changes nothing. */
  lemma UnhandledLineIgnored(s: State, line: string)
    requires !IsCommand(line, "001") && !IsCommand(line, "PING") && !IsCommand(line, "005") && !IsCommand(line, "MODE")
    ensures Step(s, line) == s
    ensures !IsCommand(line, "PRIVMSG") ==> LineNotices(line) == []
  {
  }

  /** Only a PRIVMSG line asks the delegate for a call; 001, PING, 005, MODE and every other line ask for none. */
  lemma OnlyPrivmsgNotices(line: string)
    ensures LineNotices(line) != [] ==> IsCommand(line, "PRIVMSG")
  {
  }

  /** Every channel's modes stay in the shape their letters' kinds call for. */
  lemma StepKeepsModesWellTyped(s: State, line: string)
    requires forall k :: k in s.channels ==> WellTyped(s.channels[k])
    ensures forall k :: k in Step(s, line).channels ==> WellTyped(Step(s, line).channels[k])
  {
    match Messages.Parse(line)
    case Failure(_) =>
    case Success(m) =>
      var args := Messages.Args(m);
      if m.command == "MODE" && |args| >= 2 {
        var t := Track(s, args[0]);
        WalkKeepsWellTyped(t.channels[Lower(args[0])], true, args[1], args[2..], 0);
      }
  }

  /** A MODE line keeps every channel tracked, and changes only the target's modes. */
  lemma ChangeModesKeepsOthers(s: State, target: string, modeString: string, params: seq<string>, k: string)
    requires k in s.channels
    ensures k in ChangeModes(s, target, modeString, params).channels
    ensures k != Lower(target) ==> ChangeModes(s, target, modeString, params).channels[k] == s.channels[k]
  {
  }

  /** A line changes at most one channel's modes, and removes no channel. */
  lemma StepTouchesOneChannel(s: State, line: string, k1: string, k2: string)
    requires k1 != k2 && k1 in s.channels && k2 in s.channels
    ensures k1 in Step(s, line).channels && k2 in Step(s, line).channels
    ensures Step(s, line).channels[k1] == s.channels[k1] || Step(s, line).channels[k2] == s.channels[k2]
  {
    match Messages.Parse(line)
    case Failure(_) =>
    case Success(m) =>
      var args := Messages.Args(m);
      if m.command == "MODE" && |args| >= 2 {
        ChangeModesKeepsOthers(s, args[0], args[1], args[2..], k1);
        ChangeModesKeepsOthers(s, args[0], args[1], args[2..], k2);
      }
  }

  /** Tracking a channel twice is the same as tracking it once, and keeps its modes. */
  lemma TrackIdempotent(s: State, name: string)
    ensures Track(Track(s, name), name) == Track(s, name)
    ensures Lower(name) in Track(s, name).channels
    ensures Lower(name) in s.channels ==> Track(s, name) == s
  {
  }

  /** The delegate's record of one callback. */
  function Delivered(client: Client, ns: seq<Notice>): seq<(Client, Identity.Nick, string)>
  {
    if ns == [] then [] else [(client, ns[0].sender, ns[0].message)] + Delivered(client, ns[1..])
  }

  /** A single notice is delivered as one record entry. */
  lemma DeliveredSingle(client: Client, n: Notice)
    ensures Delivered(client, [n]) == [(client, n.sender, n.message)]
  {
  }

  /** The application object that receives the client's callbacks; it records them in order. */
  class Delegate {
    var privateMessages: seq<(Client, Identity.Nick, string)>

    constructor ()
      ensures privateMessages == []
    {
      privateMessages := [];
    }

    method IrcPrivateMessage(client: Client, nick: Identity.Nick, message: string)
      modifies this
      ensures privateMessages == old(privateMessages) + [(client, nick, message)]
    {
      privateMessages := privateMessages + [(client, nick, message)];
    }
  }

  /** Every channel tracked in `a` is still tracked in `b`, under the same name. */
  ghost predicate Extends<C>(a: map<string, C>, b: map<string, C>) {
    forall k :: k in a ==> k in b && b[k] == a[k]
  }

  class Client {
    /** The client's own identity: its nickname and its ident (user name). */
    var nick: Identity.Nick
    const realname: string
    var isRegistered: bool
    /** Lines handed to the outbound sink, oldest first. */
    var sentLines: seq<string>
    const isupport: ISupport
    /** Tracked channels, keyed by lower-cased name. */
    var channels: map<string, Channel>
    var delegate: Delegate?
    /** The modes of each tracked channel, as values. */
    ghost var modeTables: map<string, ModeTable>
    ghost var Repr: set<object>

    /** Distinct names hold distinct channel objects, and `modeTables` mirrors their modes. */
    ghost predicate Valid()
      reads this, Repr
    {
      && this in Repr && isupport in Repr && (forall k :: k in channels ==> channels[k] in Repr)
      && (delegate != null ==> delegate in Repr)
      && (forall k1, k2 :: k1 in channels && k2 in channels && k1 != k2 ==> channels[k1] != channels[k2])
      && channels.Keys == modeTables.Keys
      && (forall k :: k in channels ==> channels[k].modes == modeTables[k])
    }

    ghost function View(): State
      reads this, isupport
    {
      State(isRegistered, sentLines, isupport.entries, modeTables)
    }

    function Nickname(): string
      reads this
    {
      nick.nick
    }

    function Ident(): string
      reads this
    {
      nick.user
    }

    constructor (nickname: string, ident: string, realname: string)
      ensures Valid() && fresh(Repr)
      ensures Nickname() == nickname && Ident() == ident && this.realname == realname
      ensures View() == Initial()
      ensures channels == map[] && delegate == null
    {
      nick := Identity.Nick(nickname, ident, "");
      this.realname := realname;
      isRegistered := false;
      sentLines := [];
      var table := new ISupport();
      isupport := table;
      channels := map[];
      delegate := null;
      modeTables := map[];
      new;
      Repr := {this, table};
    }

    method SetDelegate(d: Delegate)
      requires Valid()
      modifies this
      ensures Valid() && Repr == old(Repr) + {d}
      ensures delegate == d && channels == old(channels) && nick == old(nick)
      ensures View() == old(View())
    {
      delegate := d;
      Repr := Repr + {d};
    }

    /** The tracked channel of that name, created with no modes when it is not tracked yet. */
    method AddChannel(name: string) returns (channel: Channel)
      requires Valid()
      modifies this
      ensures Valid() && fresh(Repr - old(Repr))
      ensures channels == old(channels)[Lower(name) := channel]
      ensures Lower(name) in old(channels) ==> channel == old(channels[Lower(name)])
      ensures Extends(old(channels), channels)
      ensures Lower(name) !in old(channels) ==> fresh(channel) && channel.name == name
      ensures View() == Track(old(View()), name)
      ensures nick == old(nick) && delegate == old(delegate)
    {
      var key := Lower(name);
      if key in channels {
        channel := channels[key];
        assert channels == old(channels)[key := channel];
      } else {
        channel := new Channel(name);
        channels := channels[key := channel];
        modeTables := modeTables[key := map[]];
        Repr := Repr + {channel};
      }
    }

    /** Apply a mode string to the tracked channel stored under `key`, in place. */
    method ApplyChannelModes(key: string, channel: Channel, modeString: string, params: seq<string>)
      requires Valid() && key in channels && channels[key] == channel
      modifies this, channel
      ensures Valid() && Repr == old(Repr) && channels == old(channels)
      ensures View() == ApplyTracked(old(View()), key, modeString, params)
      ensures nick == old(nick) && delegate == old(delegate)
    {
      channel.ApplyModes(modeString, params);
      modeTables := modeTables[key := channel.modes];
      assert forall k :: k in channels && k != key ==> channels[k] != channel;
    }

    /** Apply a MODE line's mode string to the target's channel, tracking it first if need be. */
    method ChangeChannelModes(target: string, modeString: string, params: seq<string>)
      requires Valid()
      modifies Repr
      ensures Valid() && fresh(Repr - old(Repr))
      ensures View() == ChangeModes(old(View()), target, modeString, params)
      ensures Extends(old(channels), channels)
      ensures nick == old(nick) && delegate == old(delegate)
      ensures delegate != null ==> delegate.privateMessages == old(delegate.privateMessages)
    {
      var channel := AddChannel(target);
      ApplyChannelModes(Lower(target), channel, modeString, params);
    }

    /** Act on one parsed message. */
    method Dispatch(m: Messages.Message)
      requires Valid()
      modifies Repr
      ensures Valid() && fresh(Repr - old(Repr))
      ensures View() == Handle(old(View()), m)
      ensures Extends(old(channels), channels)
      ensures nick == old(nick) && delegate == old(delegate)
      ensures delegate != null ==>
        delegate.privateMessages == old(delegate.privateMessages) + Delivered(this, Notices(m))
    {
      var args := Messages.Args(m);
      if m.command == "001" {
        isRegistered := true;
      } else if m.command == "PING" {
        if args != [] {
          sentLines := sentLines + ["PONG " + args[0]];
        }
      } else if m.command == "005" {
        if args != [] {
          isupport.Apply(SupportTokens(args[1..]));
        }
      } else if m.command == "MODE" {
        if |args| >= 2 {
          ChangeChannelModes(args[0], args[1], args[2..]);
        }
      } else if m.command == "PRIVMSG" {
        if m.prefix.Some? && |args| >= 2 && delegate != null {
          delegate.IrcPrivateMessage(this, Identity.Parse(m.prefix.value), args[1]);
        }
      }
    }

    /** Read one raw line from the server and act on it; a line that does not parse is dropped. */
    method ReadData(line: string)
      requires Valid()
      modifies Repr
      ensures Valid() && fresh(Repr - old(Repr))
      ensures View() == Step(old(View()), line)
      ensures Extends(old(channels), channels)
      ensures nick == old(nick) && delegate == old(delegate)
      ensures delegate != null ==>
        delegate.privateMessages == old(delegate.privateMessages) + Delivered(this, LineNotices(line))
    {
      var parsed := Messages.Parse(line);
      if parsed.Success? {
        Dispatch(parsed.value);
      }
    }
  }
}
