/** String helpers shared by the parser, the identity splitter and the ISUPPORT table. */
module Text {

  /** Index of the first occurrence of `x` in `s`, or `|s|` when it does not occur. */
  function IndexOf<T(==)>(s: seq<T>, x: T): (i: nat)
    ensures i <= |s|
    ensures i < |s| ==> s[i] == x
    ensures forall k :: 0 <= k < i ==> s[k] != x
  {
    if s == [] then 0
    else if s[0] == x then 0
    else 1 + IndexOf(s[1..], x)
  }

  /** Searching a concatenation whose left part lacks `x` lands in the right part. */
  lemma {:induction false} IndexOfAppend<T>(a: seq<T>, b: seq<T>, x: T)
    requires x !in a
    ensures IndexOf(a + b, x) == |a| + IndexOf(b, x)
  {
    if a == [] {
      assert a + b == b;
    } else {
      assert a[0] in a;
      assert (a + b)[0] == a[0] != x;
      assert (a + b)[1..] == a[1..] + b;
      assert forall y :: y in a[1..] ==> y in a;
      IndexOfAppend(a[1..], b, x);
    }
  }

  /** Splitting `a + [x] + b` at its first `x` gives back `a` and `b` when `a` lacks `x`. */
  lemma {:induction false} SplitAtFirst<T>(a: seq<T>, x: T, b: seq<T>)
    requires x !in a
    ensures IndexOf(a + [x] + b, x) == |a|
    ensures (a + [x] + b)[..|a|] == a
    ensures (a + [x] + b)[|a| + 1..] == b
  {
    assert a + [x] + b == a + ([x] + b);
    IndexOfAppend(a, [x] + b, x);
  }

  /** A sequence that holds `x` is the part before its first `x`, the `x`, and the part after. */
  lemma {:induction false} JoinAtFirst<T>(s: seq<T>, x: T)
    requires x in s
    ensures s == s[..IndexOf(s, x)] + [x] + s[IndexOf(s, x) + 1..]
  {
  }

  /** A word as the protocol splits lines: non-empty and free of spaces. */
  predicate IsWord(w: string) {
    w != "" && ' ' !in w
  }

  /** The space-separated words of `s`; runs of spaces separate, and never yield an empty word. */
  function Words(s: string): (ws: seq<string>)
    ensures forall w :: w in ws ==> IsWord(w)
    decreases |s|
  {
    if s == "" then []
    else if s[0] == ' ' then Words(s[1..])
    else
      var i := IndexOf(s, ' ');
      [s[..i]] + Words(s[i..])
  }

  /** Words joined by single spaces. */
  function Join(ws: seq<string>): string {
    if ws == [] then ""
    else if |ws| == 1 then ws[0]
    else ws[0] + " " + Join(ws[1..])
  }

  /** Splitting undoes joining, for words that hold no space. */
  lemma {:induction false} WordsJoin(ws: seq<string>)
    requires forall w :: w in ws ==> IsWord(w)
    ensures Words(Join(ws)) == ws
  {
    if ws == [] {
    } else {
      var w := ws[0];
      assert w in ws;
      if |ws| == 1 {
        IndexOfAppend(w, [], ' ');
        assert w + [] == w;
        assert w[|w|..] == "";
      } else {
        var rest := Join(ws[1..]);
        var s := w + " " + rest;
        assert s == w + (" " + rest);
        IndexOfAppend(w, " " + rest, ' ');
        assert IndexOf(s, ' ') == |w|;
        assert s[..|w|] == w;
        assert s[|w|..] == " " + rest;
        assert (" " + rest)[1..] == rest;
        assert forall v :: v in ws[1..] ==> v in ws;
        WordsJoin(ws[1..]);
        assert ws == [w] + ws[1..];
      }
    }
  }

  predicate IsUpperLetter(c: char) { 'A' <= c <= 'Z' }

  predicate IsLowerLetter(c: char) { 'a' <= c <= 'z' }

  function ToLowerChar(c: char): char {
    if IsUpperLetter(c) then (c as int + 32) as char else c
  }

  function ToUpperChar(c: char): char {
    if IsLowerLetter(c) then (c as int - 32) as char else c
  }

  /** ASCII lower-casing, used to key channels case-insensitively. */
  function Lower(s: string): (r: string)
    ensures |r| == |s|
  {
    if s == "" then "" else [ToLowerChar(s[0])] + Lower(s[1..])
  }

  /** ASCII upper-casing, used to normalise command words. */
  function Upper(s: string): (r: string)
    ensures |r| == |s|
  {
    if s == "" then "" else [ToUpperChar(s[0])] + Upper(s[1..])
  }

  /** Lower-casing maps each character on its own and leaves no capital. */
  lemma {:induction false} LowerChars(s: string)
    ensures forall i :: 0 <= i < |s| ==> Lower(s)[i] == ToLowerChar(s[i]) && !IsUpperLetter(Lower(s)[i])
  {
    if s != "" {
      LowerChars(s[1..]);
      assert forall i :: 0 < i < |s| ==> Lower(s)[i] == Lower(s[1..])[i - 1];
    }
  }

  /** Upper-casing maps each character on its own and leaves no small letter. */
  lemma {:induction false} UpperChars(s: string)
    ensures forall i :: 0 <= i < |s| ==> Upper(s)[i] == ToUpperChar(s[i]) && !IsLowerLetter(Upper(s)[i])
  {
    if s != "" {
      UpperChars(s[1..]);
      assert forall i :: 0 < i < |s| ==> Upper(s)[i] == Upper(s[1..])[i - 1];
    }
  }

  /** Lower-casing leaves a string without capitals as it is, so it is idempotent. */
  lemma LowerFixesLowercase(s: string)
    requires forall i :: 0 <= i < |s| ==> !IsUpperLetter(s[i])
    ensures Lower(s) == s
  {
    LowerChars(s);
  }

  /** Lower-casing twice is lower-casing once. */
  lemma LowerIdempotent(s: string)
    ensures Lower(Lower(s)) == Lower(s)
  {
    LowerChars(s);
    LowerFixesLowercase(Lower(s));
  }

  /** Upper-casing leaves a string without small letters as it is. */
  lemma UpperFixesUppercase(s: string)
    requires forall i :: 0 <= i < |s| ==> !IsLowerLetter(s[i])
    ensures Upper(s) == s
  {
    UpperChars(s);
  }

  /** Upper-casing twice is upper-casing once. */
  lemma UpperIdempotent(s: string)
    ensures Upper(Upper(s)) == Upper(s)
  {
    UpperChars(s);
    UpperFixesUppercase(Upper(s));
  }

  /** Upper-casing keeps a word a word: spaces and colons are not letters. */
  lemma UpperKeepsWord(w: string)
    requires IsWord(w)
    ensures IsWord(Upper(w))
    ensures Upper(w)[0] == ':' <==> w[0] == ':'
  {
    UpperChars(w);
  }
}
