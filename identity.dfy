/**
 * The `nick!user@host` identity that prefixes a message from a user.
 * Two identities are the same when all three parts agree, which is
 * datatype equality here.
 */
module Identity {
  import opened Text

  datatype Nick = Nick(nick: string, user: string, host: string)

  /**
   * Split a prefix at its first `!`, then the remainder at its first `@`.
   * Without a `!` the text up to an `@` is the nick and the other parts are empty.
   */
  function Parse(raw: string): (n: Nick)
    ensures '!' !in n.nick
    ensures '!' in raw ==> '@' !in n.user
    ensures '!' !in raw ==> n.user == "" && n.host == "" && '@' !in n.nick
  {
    var i := IndexOf(raw, '!');
    if i < |raw| then
      var rest := raw[i + 1..];
      var j := IndexOf(rest, '@');
      Nick(raw[..i], rest[..j], if j < |rest| then rest[j + 1..] else "")
    else
      var j := IndexOf(raw, '@');
      assert forall c :: c in raw[..j] ==> c in raw;
      Nick(raw[..j], "", "")
  }

  function Format(n: Nick): string {
    n.nick + "!" + n.user + "@" + n.host
  }

  /** A full mask: a `!` followed, somewhere after it, by an `@`. */
  predicate IsMask(s: string) {
    '!' in s && '@' in s[IndexOf(s, '!') + 1..]
  }

  /** Parsing a formatted identity gives back its three parts. */
  lemma {:induction false} ParseFormat(n: Nick)
    requires '!' !in n.nick && '@' !in n.user
    ensures Parse(Format(n)) == n
  {
    var tail := n.user + "@" + n.host;
    SplitAtFirst(n.nick, '!', tail);
    SplitAtFirst(n.user, '@', n.host);
    assert Format(n) == n.nick + "!" + tail;
  }

  /** A full mask parses into the text before its first `!`, then the text up to the next `@`, then the rest. */
  lemma {:induction false} ParseMask(s: string) returns (i: nat, rest: string, j: nat)
    requires IsMask(s)
    ensures i < |s| && rest == s[i + 1..] && j < |rest|
    ensures s[i] == '!' && rest[j] == '@'
    ensures Parse(s) == Nick(s[..i], rest[..j], rest[j + 1..])
  {
    i := IndexOf(s, '!');
    rest := s[i + 1..];
    j := IndexOf(rest, '@');
  }

  /** Formatting a parsed full mask gives back the text it came from. */
  lemma {:induction false} FormatParse(s: string)
    requires IsMask(s)
    ensures Format(Parse(s)) == s
  {
    var i, rest, j := ParseMask(s);
    JoinAtFirst(s, '!');
    JoinAtFirst(rest, '@');
    FormatOfParts(s, s[..i], rest[..j], rest[j + 1..]);
  }

  lemma {:induction false} FormatOfParts(s: string, nick: string, user: string, host: string)
    requires Parse(s) == Nick(nick, user, host)
    requires s == nick + "!" + (user + "@" + host)
    ensures Format(Parse(s)) == s
  {
  }
}
