/**
 * One protocol line as the message grammar of section 2.3.1 of RFC 1459 lays it out:
 * an optional `:prefix`, a command word or three-digit numeric, space-separated
 * parameters, and a `:trailing` parameter that runs to the end of the line.
 */
module Messages {
  import opened Wrappers
  import opened Text

  datatype Message = Message(prefix: Option<string>, command: string, params: seq<string>, trailing: Option<string>)

  datatype ParseError = EmptyLine | MissingCommand

  /** The words of a line's tail and its trailing parameter, if any. */
  datatype Tokens = Tokens(words: seq<string>, trailing: Option<string>)

  /** A middle parameter or command: a word that does not open the trailing parameter. */
  predicate IsToken(w: string) {
    IsWord(w) && w[0] != ':'
  }

  predicate NoBreaks(s: string) {
    '\r' !in s && '\n' !in s
  }

  function IsTerminator(c: char): bool { c == '\r' || c == '\n' }

  /** The line without its trailing carriage returns and line feeds. */
  function StripTerminators(s: string): (r: string)
    ensures r <= s
    ensures r == "" || !IsTerminator(r[|r| - 1])
    ensures forall i :: |r| <= i < |s| ==> IsTerminator(s[i])
    ensures NoBreaks(s) ==> r == s
  {
    if s != "" && IsTerminator(s[|s| - 1]) then
      assert s[|s| - 1] in s;
      StripTerminators(s[..|s| - 1])
    else s
  }

  /** Break the text after the prefix into words, stopping at a word that starts with `:`. */
  function Tokenize(s: string): (r: Tokens)
    ensures forall w :: w in r.words ==> IsToken(w)
    decreases |s|
  {
    if s == "" then Tokens([], None)
    else if s[0] == ' ' then Tokenize(s[1..])
    else if s[0] == ':' then Tokens([], Some(s[1..]))
    else
      var i := IndexOf(s, ' ');
      var rest := Tokenize(s[i..]);
      Tokens([s[..i]] + rest.words, rest.trailing)
  }

  /** Parse one raw line; an empty line or one without a command word is an error. */
  function Parse(raw: string): (r: Result<Message, ParseError>)
    ensures StripTerminators(raw) == "" ==> r == Failure(EmptyLine)
    ensures r.Success? ==> IsToken(r.value.command) && Upper(r.value.command) == r.value.command
    ensures r.Success? ==> forall p :: p in r.value.params ==> IsToken(p)
  {
    var line := StripTerminators(raw);
    if line == "" then Failure(EmptyLine)
    else
      var i := IndexOf(line, ' ');
      var prefix := if line[0] == ':' then Some(line[1..i]) else None;
      var rest := if line[0] != ':' then line else if i < |line| then line[i + 1..] else "";
      var tokens := Tokenize(rest);
      if tokens.words == [] then Failure(MissingCommand)
      else
        var command := Upper(tokens.words[0]);
        assert tokens.words[0] in tokens.words;
        UpperKeepsWord(tokens.words[0]);
        UpperIdempotent(tokens.words[0]);
        assert forall p :: p in tokens.words[1..] ==> p in tokens.words;
        Success(Message(prefix, command, tokens.words[1..], tokens.trailing))
  }

  /** All the parameters of a message, the trailing one last. */
  function Args(m: Message): (args: seq<string>)
    ensures |args| == |m.params| + (if m.trailing.Some? then 1 else 0)
    ensures args[..|m.params|] == m.params
    ensures m.trailing.Some? ==> args[|args| - 1] == m.trailing.value
  {
    m.params + (if m.trailing.Some? then [m.trailing.value] else [])
  }

  /** The wire form of a message, without a line terminator. */
  function Format(m: Message): string {
    (if m.prefix.Some? then ":" + m.prefix.value + " " else "") + m.command + Tail(m.params, m.trailing)
  }

  function Tail(params: seq<string>, trailing: Option<string>): string {
    if params != [] then " " + params[0] + Tail(params[1..], trailing)
    else if trailing.Some? then " :" + trailing.value
    else ""
  }

  /** The messages that `Format` writes so that `Parse` can read them back. */
  predicate WellFormed(m: Message) {
    && (m.prefix.Some? ==> ' ' !in m.prefix.value && NoBreaks(m.prefix.value))
    && IsToken(m.command) && NoBreaks(m.command) && Upper(m.command) == m.command
    && (forall p :: p in m.params ==> IsToken(p) && NoBreaks(p))
    && (m.trailing.Some? ==> NoBreaks(m.trailing.value))
  }

  /** A leading token is read as one word and the rest is tokenised on its own. */
  lemma {:induction false} TokenizeToken(w: string, rest: string)
    requires IsToken(w)
    requires rest == "" || rest[0] == ' '
    ensures Tokenize(w + rest) == Tokens([w] + Tokenize(rest).words, Tokenize(rest).trailing)
  {
    var s := w + rest;
    assert s[0] == w[0];
    if rest == "" {
      assert s == w + [] && w + [] == w;
      assert IndexOf(w, ' ') == |w|;
      assert s[|w|..] == "";
    } else {
      assert rest == [' '] + rest[1..];
      SplitAtFirst(w, ' ', rest[1..]);
      assert s == w + [' '] + rest[1..];
      assert s[|w|..] == rest;
    }
  }

  /** A leading space separates words and is otherwise ignored. */
  lemma {:induction false} TokenizeSpace(s: string)
    ensures Tokenize(" " + s) == Tokenize(s)
  {
    assert (" " + s)[1..] == s;
  }

  /** A `:` that opens a word opens the trailing parameter. */
  lemma {:induction false} TokenizeTrailing(t: string)
    ensures Tokenize(" :" + t) == Tokens([], Some(t))
  {
    TokenizeSpace(":" + t);
    assert " " + (":" + t) == " :" + t;
    assert (":" + t)[1..] == t;
  }

  /** A space and a token in front of a tail add the token as its first word. */
  lemma TokenizeSpacedToken(w: string, rest: string)
    requires IsToken(w)
    requires rest == "" || rest[0] == ' '
    ensures Tokenize(" " + (w + rest)) == Tokens([w] + Tokenize(rest).words, Tokenize(rest).trailing)
  {
    TokenizeToken(w, rest);
    TokenizeSpace(w + rest);
  }

  /** A tail with parameters opens with a space and the first of them. */
  lemma TailCons(params: seq<string>, trailing: Option<string>)
    requires params != []
    ensures Tail(params, trailing) == " " + (params[0] + Tail(params[1..], trailing))
  {
  }

  /** A non-empty tail opens with a space. */
  lemma TailStartsWithSpace(params: seq<string>, trailing: Option<string>)
    ensures Tail(params, trailing) == "" || Tail(params, trailing)[0] == ' '
  {
    if params != [] {
      TailCons(params, trailing);
    }
  }

  /** The tail `Format` writes tokenises back into the same parameters and trailing part. */
  lemma {:induction false} TokenizeTail(params: seq<string>, trailing: Option<string>)
    requires forall p :: p in params ==> IsToken(p)
    ensures Tokenize(Tail(params, trailing)) == Tokens(params, trailing)
    decreases |params|
  {
    if params != [] {
      var p := params[0];
      assert p in params;
      var rest := Tail(params[1..], trailing);
      assert forall q :: q in params[1..] ==> q in params;
      TokenizeTail(params[1..], trailing);
      TailStartsWithSpace(params[1..], trailing);
      TailCons(params, trailing);
      TokenizeSpacedToken(p, rest);
      assert [p] + params[1..] == params;
    } else if trailing.Some? {
      TokenizeTrailing(trailing.value);
    }
  }

  /** `Format` writes no line break when no part holds one. */
  lemma {:induction false} TailNoBreaks(params: seq<string>, trailing: Option<string>)
    requires forall p :: p in params ==> NoBreaks(p)
    requires trailing.Some? ==> NoBreaks(trailing.value)
    ensures NoBreaks(Tail(params, trailing))
    decreases |params|
  {
    if params != [] {
      assert params[0] in params;
      assert forall q :: q in params[1..] ==> q in params;
      TailNoBreaks(params[1..], trailing);
    }
  }

  /** A well-formed message is written without a line break. */
  lemma FormatNoBreaks(m: Message)
    requires WellFormed(m)
    ensures NoBreaks(Format(m))
  {
    TailNoBreaks(m.params, m.trailing);
  }

  /** A `:prefix ` head ends at the first space, and the body follows it. */
  lemma {:induction false} PrefixSplits(p: string, body: string)
    requires ' ' !in p
    ensures IndexOf(":" + p + " " + body, ' ') == |p| + 1
    ensures (":" + p + " " + body)[1..|p| + 1] == p
    ensures (":" + p + " " + body)[|p| + 2..] == body
  {
    var line := ":" + p + " " + body;
    assert line == [':'] + p + [' '] + body;
    SplitAtFirst([':'] + p, ' ', body);
  }

  /** How `Parse` reads a line made of an optional `:prefix ` head and a body of words. */
  lemma ParseOf(line: string, prefix: Option<string>, body: string)
    requires NoBreaks(line)
    requires prefix.None? ==> line == body && body != "" && body[0] != ':'
    requires prefix.Some? ==> line == ":" + prefix.value + " " + body && ' ' !in prefix.value
    requires Tokenize(body).words != []
    ensures Parse(line) == Success(Message(prefix, Upper(Tokenize(body).words[0]),
      Tokenize(body).words[1..], Tokenize(body).trailing))
  {
    assert StripTerminators(line) == line;
    if prefix.Some? {
      PrefixSplits(prefix.value, body);
    }
  }

  /** The command and tail that `Format` writes tokenise back into the command and the parameters. */
  lemma {:induction false} BodyTokens(m: Message)
    requires WellFormed(m)
    ensures Tokenize(m.command + Tail(m.params, m.trailing)) == Tokens([m.command] + m.params, m.trailing)
  {
    TokenizeTail(m.params, m.trailing);
    TailStartsWithSpace(m.params, m.trailing);
    TokenizeToken(m.command, Tail(m.params, m.trailing));
  }

  /** `Format` writes the optional `:prefix ` head and then the body. */
  lemma FormatShape(m: Message)
    ensures m.prefix.Some? ==> Format(m) == ":" + m.prefix.value + " " + (m.command + Tail(m.params, m.trailing))
    ensures m.prefix.None? ==> Format(m) == m.command + Tail(m.params, m.trailing)
  {
  }

  /** Parsing a formatted well-formed message gives the message back. */
  lemma {:induction false} ParseFormat(m: Message)
    requires WellFormed(m)
    ensures Parse(Format(m)) == Success(m)
  {
    var body := m.command + Tail(m.params, m.trailing);
    BodyTokens(m);
    assert ([m.command] + m.params)[1..] == m.params;
    FormatNoBreaks(m);
    FormatShape(m);
    ParseOf(Format(m), m.prefix, body);
  }
}
