/**
 * Channel modes: a `+`/`-` mode string applied, letter by letter, to the
 * per-channel table of set modes. A letter is a boolean flag, takes one
 * parameter whose latest value wins, or keeps an ordered list of values.
 */
module Modes {
  import opened Text

  datatype ModeKind = Boolean | Parameterized | List

  /** The kind of each mode letter; letters not listed are treated as boolean flags. */
  function KindOf(letter: char): ModeKind {
    if letter == 'b' then List
    else if letter == 'l' then Parameterized
    else Boolean
  }

  /** What a set mode holds: a flag that is on, the latest parameter, or the list of entries. */
  datatype ModeValue = On | Value(param: string) | Entries(items: seq<string>)

  type ModeTable = map<char, ModeValue>

  predicate Fits(kind: ModeKind, v: ModeValue) {
    match kind
    case Boolean => v.On?
    case Parameterized => v.Value?
    case List => v.Entries? && v.items != []
  }

  /** A letter is present exactly while it is set, with the shape its kind calls for. */
  predicate WellTyped(modes: ModeTable) {
    forall c :: c in modes ==> Fits(KindOf(c), modes[c])
  }

  predicate IsSign(c: char) { c == '+' || c == '-' }

  /** The entries currently held by a list mode, empty when it is unset. */
  function EntriesOf(modes: ModeTable, letter: char): seq<string> {
    if letter in modes && modes[letter].Entries? then modes[letter].items else []
  }

  /** `items` without the first entry equal to `x`. */
  function RemoveFirst(items: seq<string>, x: string): (r: seq<string>)
    ensures x !in items ==> r == items
    ensures |r| == if x in items then |items| - 1 else |items|
  {
    if items == [] then []
    else if items[0] == x then items[1..]
    else
      assert items == [items[0]] + items[1..];
      [items[0]] + RemoveFirst(items[1..], x)
  }

  /** Exactly one copy of `x` goes, when there is one, and nothing else. */
  lemma {:induction false} RemoveFirstMultiset(items: seq<string>, x: string)
    ensures multiset(RemoveFirst(items, x)) == multiset(items) - multiset{x}
  {
    if items != [] {
      assert items == [items[0]] + items[1..];
      if items[0] != x {
        RemoveFirstMultiset(items[1..], x);
      }
    }
  }

  /** The entry removed is the first one equal to `x`; the others keep their order. */
  lemma {:induction false} RemoveFirstSplits(items: seq<string>, x: string)
    requires x in items
    ensures RemoveFirst(items, x) == items[..IndexOf(items, x)] + items[IndexOf(items, x) + 1..]
  {
    if items[0] != x {
      var tail := items[1..];
      assert x in tail by {
        assert items == [items[0]] + tail;
      }
      RemoveFirstSplits(tail, x);
      var j := IndexOf(tail, x);
      assert IndexOf(items, x) == j + 1;
      assert items[..j + 1] == [items[0]] + tail[..j];
      assert items[j + 2..] == tail[j + 1..];
    }
  }

  /**
   * One letter under the current sign. A parameterised or list letter takes the
   * next unused parameter; when none is left the letter is skipped.
   */
  function ApplyLetter(modes: ModeTable, adding: bool, letter: char, params: seq<string>, next: nat): (ModeTable, nat)
  {
    match KindOf(letter)
    case Boolean =>
      (if adding then modes[letter := On] else modes - {letter}, next)
    case Parameterized =>
      if next >= |params| then (modes, next)
      else (if adding then modes[letter := Value(params[next])] else modes - {letter}, next + 1)
    case List =>
      if next >= |params| then (modes, next)
      else if adding then (modes[letter := Entries(EntriesOf(modes, letter) + [params[next]])], next + 1)
      else
        var rest := RemoveFirst(EntriesOf(modes, letter), params[next]);
        (if rest == [] then modes - {letter} else modes[letter := Entries(rest)], next + 1)
  }

  /** The rest of a mode string, read under the current sign from parameter `next` on. */
  function Walk(modes: ModeTable, adding: bool, s: string, params: seq<string>, next: nat): ModeTable
    decreases |s|
  {
    if s == "" then modes
    else if s[0] == '+' then Walk(modes, true, s[1..], params, next)
    else if s[0] == '-' then Walk(modes, false, s[1..], params, next)
    else
      var (m, n) := ApplyLetter(modes, adding, s[0], params, next);
      Walk(m, adding, s[1..], params, n)
  }

  /** A whole mode string with its parameters; the sign is `+` until one is given. */
  function Apply(modes: ModeTable, modeString: string, params: seq<string>): ModeTable {
    Walk(modes, true, modeString, params, 0)
  }

  lemma ApplyLetterKeepsWellTyped(modes: ModeTable, adding: bool, letter: char, params: seq<string>, next: nat)
    requires WellTyped(modes)
    ensures WellTyped(ApplyLetter(modes, adding, letter, params, next).0)
    ensures ApplyLetter(modes, adding, letter, params, next).1 >= next
  {
  }

  /** Applying a mode string keeps every set letter in the shape its kind calls for. */
  lemma {:induction false} WalkKeepsWellTyped(modes: ModeTable, adding: bool, s: string, params: seq<string>, next: nat)
    requires WellTyped(modes)
    ensures WellTyped(Walk(modes, adding, s, params, next))
    decreases |s|
  {
    if s != "" {
      if IsSign(s[0]) {
        WalkKeepsWellTyped(modes, s[0] == '+', s[1..], params, next);
      } else {
        var (m, n) := ApplyLetter(modes, adding, s[0], params, next);
        ApplyLetterKeepsWellTyped(modes, adding, s[0], params, next);
        WalkKeepsWellTyped(m, adding, s[1..], params, n);
      }
    }
  }

  /** A letter the mode string does not mention keeps its state. */
  lemma {:induction false} WalkLeavesOthers(modes: ModeTable, adding: bool, s: string, params: seq<string>, next: nat, c: char)
    requires c !in s
    ensures c in Walk(modes, adding, s, params, next) <==> c in modes
    ensures c in modes ==> Walk(modes, adding, s, params, next)[c] == modes[c]
    decreases |s|
  {
    if s != "" {
      assert s[0] in s;
      assert forall d :: d in s[1..] ==> d in s;
      if IsSign(s[0]) {
        WalkLeavesOthers(modes, s[0] == '+', s[1..], params, next, c);
      } else {
        var (m, n) := ApplyLetter(modes, adding, s[0], params, next);
        WalkLeavesOthers(m, adding, s[1..], params, n, c);
      }
    }
  }

  /** One signed letter, as the mode string reads it. */
  datatype Change = Change(adding: bool, letter: char)

  /** The signed letters of a mode string: each letter paired with the sign in force at it. */
  function Changes(s: string, adding: bool): (cs: seq<Change>)
    ensures |cs| <= |s|
    ensures forall k :: 0 <= k < |cs| ==> !IsSign(cs[k].letter)
  {
    if s == "" then []
    else if IsSign(s[0]) then Changes(s[1..], s[0] == '+')
    else [Change(adding, s[0])] + Changes(s[1..], adding)
  }

  /** Signed letters applied one after another. */
  function ApplyChanges(modes: ModeTable, cs: seq<Change>, params: seq<string>, next: nat): ModeTable
    decreases |cs|
  {
    if cs == [] then modes
    else
      var (m, n) := ApplyLetter(modes, cs[0].adding, cs[0].letter, params, next);
      ApplyChanges(m, cs[1..], params, n)
  }

  /** Reading a mode string is applying its signed letters in order. */
  lemma {:induction false} WalkIsChanges(modes: ModeTable, adding: bool, s: string, params: seq<string>, next: nat)
    ensures Walk(modes, adding, s, params, next) == ApplyChanges(modes, Changes(s, adding), params, next)
    decreases |s|
  {
    if s != "" {
      if IsSign(s[0]) {
        WalkIsChanges(modes, s[0] == '+', s[1..], params, next);
      } else {
        var (m, n) := ApplyLetter(modes, adding, s[0], params, next);
        WalkIsChanges(m, adding, s[1..], params, n);
        var cs := Changes(s, adding);
        assert cs == [Change(adding, s[0])] + Changes(s[1..], adding);
        assert cs[1..] == Changes(s[1..], adding);
      }
    }
  }

  /** How the `+` and `-` runs are grouped does not matter, only the signed letters do. */
  lemma {:induction false} SameChangesSameModes(modes: ModeTable, s1: string, s2: string, params: seq<string>)
    requires Changes(s1, true) == Changes(s2, true)
    ensures Apply(modes, s1, params) == Apply(modes, s2, params)
  {
    WalkIsChanges(modes, true, s1, params, 0);
    WalkIsChanges(modes, true, s2, params, 0);
  }

  /** A sign and one letter read as that letter alone. */
  lemma {:induction false} ApplySingle(modes: ModeTable, sign: char, letter: char, params: seq<string>)
    requires IsSign(sign) && !IsSign(letter)
    ensures Apply(modes, [sign, letter], params) == ApplyLetter(modes, sign == '+', letter, params, 0).0
  {
    var s := [sign, letter];
    assert s[0] == sign && s[1..] == [letter];
    assert [letter][0] == letter && [letter][1..] == "";
    var r := ApplyLetter(modes, sign == '+', letter, params, 0);
    assert Walk(r.0, sign == '+', "", params, r.1) == r.0;
    assert Walk(modes, sign == '+', [letter], params, 0) == r.0;
  }

  /** A run of boolean letters under one sign sets, or unsets, exactly those letters. */
  lemma {:induction false} BooleanRun(modes: ModeTable, adding: bool, letters: string, params: seq<string>, next: nat)
    requires forall k :: 0 <= k < |letters| ==> !IsSign(letters[k]) && KindOf(letters[k]) == Boolean
    ensures forall c :: c in Walk(modes, adding, letters, params, next) <==>
      (if adding then c in modes || c in letters else c in modes && c !in letters)
    ensures forall c :: c in Walk(modes, adding, letters, params, next) ==>
      Walk(modes, adding, letters, params, next)[c] == if c in letters then On else modes[c]
    decreases |letters|
  {
    if letters != "" {
      var c0 := letters[0];
      assert !IsSign(c0) && KindOf(c0) == Boolean;
      var m := if adding then modes[c0 := On] else modes - {c0};
      assert ApplyLetter(modes, adding, c0, params, next) == (m, next);
      BooleanRun(m, adding, letters[1..], params, next);
      assert forall c :: c in letters <==> c == c0 || c in letters[1..] by {
        assert letters == [c0] + letters[1..];
      }
    }
  }

  /** Removing a boolean flag that is not set changes nothing. */
  lemma {:induction false} UnsetAbsentFlag(modes: ModeTable, letter: char, params: seq<string>)
    requires !IsSign(letter) && KindOf(letter) == Boolean && letter !in modes
    ensures Apply(modes, ['-', letter], params) == modes
  {
    ApplySingle(modes, '-', letter, params);
  }

  /** `+l` with a value replaces whatever value was there before. */
  lemma {:induction false} ParameterReplaces(modes: ModeTable, value: string, params: seq<string>)
    requires params != [] && params[0] == value
    ensures Apply(modes, "+l", params) == modes['l' := Value(value)]
  {
    ApplySingle(modes, '+', 'l', params);
  }

  /** `+b` with a value appends it after the entries already listed. */
  lemma {:induction false} ListAppends(modes: ModeTable, value: string)
    ensures EntriesOf(Apply(modes, "+b", [value]), 'b') == EntriesOf(modes, 'b') + [value]
    ensures Apply(modes, "+b", [value]) - {'b'} == modes - {'b'}
  {
    ApplySingle(modes, '+', 'b', [value]);
  }

  /** `-b` with a value removes its first occurrence; the letter is unset once its list is empty. */
  lemma {:induction false} ListRemovesFirst(modes: ModeTable, value: string)
    requires WellTyped(modes)
    ensures EntriesOf(Apply(modes, "-b", [value]), 'b') == RemoveFirst(EntriesOf(modes, 'b'), value)
    ensures 'b' in Apply(modes, "-b", [value]) <==> RemoveFirst(EntriesOf(modes, 'b'), value) != []
    ensures Apply(modes, "-b", [value]) - {'b'} == modes - {'b'}
    ensures value !in EntriesOf(modes, 'b') ==> Apply(modes, "-b", [value]) == modes
  {
    ApplySingle(modes, '-', 'b', [value]);
    if value !in EntriesOf(modes, 'b') && 'b' !in modes {
      assert modes - {'b'} == modes;
    }
  }

  /** A parameterised or list letter with no parameter left is skipped. */
  lemma {:induction false} MissingParameterSkips(modes: ModeTable, sign: char, letter: char)
    requires IsSign(sign) && !IsSign(letter) && KindOf(letter) != Boolean
    ensures Apply(modes, [sign, letter], []) == modes
  {
    ApplySingle(modes, sign, letter, []);
  }

  /** A channel and the modes currently set on it; MODE lines change the table in place. */
  class Channel {
    const name: string
    var modes: ModeTable

    constructor (name: string)
      ensures this.name == name && modes == map[]
    {
      this.name := name;
      modes := map[];
    }

    /** Apply a mode string and its parameters to this channel's modes. */
    method ApplyModes(modeString: string, params: seq<string>)
      modifies this
      ensures modes == Apply(old(modes), modeString, params)
    {
      var adding := true;
      var next := 0;
      var i := 0;
      while i < |modeString|
        invariant 0 <= i <= |modeString|
        invariant Walk(modes, adding, modeString[i..], params, next) == Apply(old(modes), modeString, params)
      {
        var c := modeString[i];
        assert modeString[i..][0] == c && modeString[i..][1..] == modeString[i + 1..];
        if c == '+' {
          adding := true;
        } else if c == '-' {
          adding := false;
        } else {
          match KindOf(c)
          case Boolean =>
            if adding {
              modes := modes[c := On];
            } else {
              modes := modes - {c};
            }
          case Parameterized =>
            if next < |params| {
              if adding {
                modes := modes[c := Value(params[next])];
              } else {
                modes := modes - {c};
              }
              next := next + 1;
            }
          case List =>
            if next < |params| {
              var entries := EntriesOf(modes, c);
              if adding {
                modes := modes[c := Entries(entries + [params[next]])];
              } else {
                var rest := RemoveFirst(entries, params[next]);
                if rest == [] {
                  modes := modes - {c};
                } else {
                  modes := modes[c := Entries(rest)];
                }
              }
              next := next + 1;
            }
        }
        i := i + 1;
      }
    }
  }
}
