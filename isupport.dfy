/**
 * The ISUPPORT table: `KEY=VALUE` and bare `KEY` tokens that the server
 * advertises in numeric 005 replies, with the integer limits read from it.
 */
module Capabilities {
  import opened Wrappers
  import opened Text

  /** Limits used while the server has not advertised its own. */
  const DefaultNickLength: nat := 9
  const DefaultChannelLength: nat := 200

  datatype Token = Token(key: string, value: string)

  /** Split a token at its first `=`; a bare key has the empty value. */
  function ParseToken(s: string): Token {
    var i := IndexOf(s, '=');
    if i < |s| then Token(s[..i], s[i + 1..]) else Token(s, "")
  }

  /** A token splits into a key without `=` and, when it holds an `=`, the value after the first one. */
  lemma ParseTokenSplits(s: string)
    ensures '=' !in ParseToken(s).key
    ensures '=' in s ==> s == ParseToken(s).key + "=" + ParseToken(s).value
    ensures '=' !in s ==> ParseToken(s) == Token(s, "")
  {
    if IndexOf(s, '=') < |s| {
      JoinAtFirst(s, '=');
    }
  }

  function KeyOf(s: string): string { ParseToken(s).key }

  /** Reading back a written `KEY=VALUE` token. */
  lemma {:induction false} ParseTokenOfPair(key: string, value: string)
    requires '=' !in key
    ensures ParseToken(key + "=" + value) == Token(key, value)
  {
    SplitAtFirst(key, '=', value);
  }

  /** The table after storing each token in turn; a later token overwrites an earlier one. */
  function Assign(table: map<string, string>, tokens: seq<string>): map<string, string>
  {
    if tokens == [] then table
    else
      var t := ParseToken(tokens[|tokens| - 1]);
      Assign(table, tokens[..|tokens| - 1])[t.key := t.value]
  }

  /** The last token that names a key decides its value. */
  lemma {:induction false} AssignLastWins(table: map<string, string>, tokens: seq<string>, key: string, i: nat)
    requires i < |tokens| && KeyOf(tokens[i]) == key
    requires forall j :: i < j < |tokens| ==> KeyOf(tokens[j]) != key
    ensures key in Assign(table, tokens)
    ensures Assign(table, tokens)[key] == ParseToken(tokens[i]).value
    decreases |tokens|
  {
    var n := |tokens|;
    var prefix := tokens[..n - 1];
    var t := ParseToken(tokens[n - 1]);
    var earlier := Assign(table, prefix);
    assert Assign(table, tokens) == earlier[t.key := t.value];
    if i < n - 1 {
      assert t.key == KeyOf(tokens[n - 1]) != key;
      assert forall j :: i < j < |prefix| ==> prefix[j] == tokens[j];
      assert prefix[i] == tokens[i];
      AssignLastWins(table, prefix, key, i);
      assert key in earlier && earlier[key] == ParseToken(tokens[i]).value;
    } else {
      assert t.key == key;
    }
  }

  /** A key no token names keeps its entry, or its absence. */
  lemma {:induction false} AssignKeepsOthers(table: map<string, string>, tokens: seq<string>, key: string)
    requires forall j :: 0 <= j < |tokens| ==> KeyOf(tokens[j]) != key
    ensures key in Assign(table, tokens) <==> key in table
    ensures key in table ==> Assign(table, tokens)[key] == table[key]
    decreases |tokens|
  {
    if tokens != [] {
      var prefix := tokens[..|tokens| - 1];
      assert forall j :: 0 <= j < |prefix| ==> prefix[j] == tokens[j];
      AssignKeepsOthers(table, prefix, key);
    }
  }

  predicate IsDigit(c: char) { '0' <= c <= '9' }

  predicate AllDigits(s: string) { forall i :: 0 <= i < |s| ==> IsDigit(s[i]) }

  function DigitsValue(s: string): nat
    requires AllDigits(s)
  {
    if s == "" then 0 else DigitsValue(s[..|s| - 1]) * 10 + (s[|s| - 1] as int - '0' as int)
  }

  /** A value that is all decimal digits read as a number; anything else is not a number. */
  function ParseNumber(s: string): Option<nat> {
    if s != "" && AllDigits(s) then Some(DigitsValue(s)) else None
  }

  /** The decimal digits of `n`, most significant first. */
  function Decimal(n: nat): (r: string)
    ensures r != "" && AllDigits(r)
  {
    var d := (n % 10 + '0' as int) as char;
    if n < 10 then [d] else Decimal(n / 10) + [d]
  }

  /** Reading a number back from its decimal digits. */
  lemma {:induction false} ParseNumberDecimal(n: nat)
    ensures ParseNumber(Decimal(n)) == Some(n)
  {
    var s := Decimal(n);
    var d := (n % 10 + '0' as int) as char;
    assert d as int - '0' as int == n % 10;
    if n < 10 {
      assert s == [d] && s[..0] == "";
      assert DigitsValue(s) == DigitsValue("") * 10 + n % 10;
    } else {
      ParseNumberDecimal(n / 10);
      assert s == Decimal(n / 10) + [d];
      assert s[..|s| - 1] == Decimal(n / 10);
      assert DigitsValue(s) == DigitsValue(Decimal(n / 10)) * 10 + n % 10;
    }
  }

  /** The numeric value stored under `key`, or `default` when it is absent or not a number. */
  function Limit(table: map<string, string>, key: string, default: nat): (n: nat)
    ensures key !in table ==> n == default
    ensures n == default || (key in table && ParseNumber(table[key]) == Some(n))
    ensures key in table && ParseNumber(table[key]).Some? ==> n == ParseNumber(table[key]).value
    ensures key in table && ParseNumber(table[key]).None? ==> n == default
  {
    if key in table && ParseNumber(table[key]).Some? then ParseNumber(table[key]).value else default
  }

  /** A limit advertised in decimal reads back as that number, whatever was stored before. */
  lemma LimitAdvertised(table: map<string, string>, key: string, n: nat, default: nat)
    ensures Limit(table[key := Decimal(n)], key, default) == n
  {
    ParseNumberDecimal(n);
  }

  /** The words of each of the given parameters, in order. */
  function SupportTokens(args: seq<string>): (tokens: seq<string>)
    ensures forall t :: t in tokens ==> IsWord(t)
  {
    if args == [] then [] else Words(args[0]) + SupportTokens(args[1..])
  }

  /** The client's ISUPPORT table, updated in place by each 005 line. */
  class ISupport {
    var entries: map<string, string>

    constructor ()
      ensures entries == map[]
    {
      entries := map[];
    }

    /** Store the tokens of one 005 line, in order. */
    method Apply(tokens: seq<string>)
      modifies this
      ensures entries == Assign(old(entries), tokens)
    {
      var i := 0;
      while i < |tokens|
        invariant 0 <= i <= |tokens|
        invariant entries == Assign(old(entries), tokens[..i])
      {
        var t := ParseToken(tokens[i]);
        entries := entries[t.key := t.value];
        i := i + 1;
        assert tokens[..i][..i - 1] == tokens[..i - 1];
      }
      assert tokens[..|tokens|] == tokens;
    }

    /** The advertised `NICKLEN`, or the default when none is advertised as a number. */
    function MaximumNickLength(): (n: nat)
      reads this
      ensures "NICKLEN" !in entries ==> n == DefaultNickLength
      ensures n == DefaultNickLength || ("NICKLEN" in entries && ParseNumber(entries["NICKLEN"]) == Some(n))
      ensures "NICKLEN" in entries && ParseNumber(entries["NICKLEN"]).Some? ==> n == ParseNumber(entries["NICKLEN"]).value
      ensures "NICKLEN" in entries && ParseNumber(entries["NICKLEN"]).None? ==> n == DefaultNickLength
    {
      Limit(entries, "NICKLEN", DefaultNickLength)
    }

    /** The advertised `CHANNELLEN`, or the default when none is advertised as a number. */
    function MaximumChannelLength(): (n: nat)
      reads this
      ensures "CHANNELLEN" !in entries ==> n == DefaultChannelLength
      ensures n == DefaultChannelLength || ("CHANNELLEN" in entries && ParseNumber(entries["CHANNELLEN"]) == Some(n))
      ensures "CHANNELLEN" in entries && ParseNumber(entries["CHANNELLEN"]).Some? ==> n == ParseNumber(entries["CHANNELLEN"]).value
      ensures "CHANNELLEN" in entries && ParseNumber(entries["CHANNELLEN"]).None? ==> n == DefaultChannelLength
    {
      Limit(entries, "CHANNELLEN", DefaultChannelLength)
    }
  }
}
