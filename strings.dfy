/**
 * The JavaScript string operations the chat client relies on: `trim`,
 * ASCII case mapping for `toLowerCase`/`toUpperCase`, `includes`,
 * `split(' ')` and the avatar initials built from it.
 * A `char` here is a Unicode scalar value, where JavaScript indexes UTF-16 code
 * units; the two agree on every character of the Basic Multilingual Plane.
 */
module Strings {
  import opened Options

  /** The WhiteSpace and LineTerminator code points that `String.prototype.trim` strips. */
  predicate IsSpace(c: char) {
    || c == ' ' || c == '\t' || c == '\n' || c == '\r' || c == '\U{000B}' || c == '\U{000C}'
    || c == '\U{00A0}' || c == '\U{1680}' || ('\U{2000}' <= c <= '\U{200A}')
    || c == '\U{2028}' || c == '\U{2029}' || c == '\U{202F}' || c == '\U{205F}'
    || c == '\U{3000}' || c == '\U{FEFF}'
  }

  /** True for a string JavaScript treats as truthy: a present, non-empty string. */
  predicate Truthy(s: Option<string>) {
    s.Some? && s.value != []
  }

  /** The length of the run of white space that starts `s`. */
  function LeadingSpace(s: string): (n: nat)
    ensures n <= |s|
    ensures forall k :: 0 <= k < n ==> IsSpace(s[k])
    ensures n < |s| ==> !IsSpace(s[n])
  {
    if s == [] || !IsSpace(s[0]) then 0
    else
      var n := LeadingSpace(s[1..]);
      assert forall k :: 1 <= k <= n ==> s[k] == s[1..][k - 1];
      1 + n
  }

  /** The length of the run of white space that ends `s`. */
  function TrailingSpace(s: string): (n: nat)
    ensures n <= |s|
    ensures forall k :: |s| - n <= k < |s| ==> IsSpace(s[k])
    ensures n < |s| ==> !IsSpace(s[|s| - n - 1])
  {
    if s == [] || !IsSpace(s[|s| - 1]) then 0
    else
      var init := s[..|s| - 1];
      var n := TrailingSpace(init);
      assert forall k :: 0 <= k < |init| ==> s[k] == init[k];
      1 + n
  }

  /** `r` is the part of `s` from index `i` on, after a run of white space, and before one. */
  predicate SpaceAround(s: string, i: int, r: string) {
    && 0 <= i <= |s| - |r| && r == s[i..i + |r|]
    && (forall k :: 0 <= k < i ==> IsSpace(s[k]))
    && (forall k :: i + |r| <= k < |s| ==> IsSpace(s[k]))
  }

  /** `s.trim()`: `s` without the white space at its start and at its end. */
  function Trim(s: string): (r: string)
    ensures exists i :: SpaceAround(s, i, r)
    ensures r != [] ==> !IsSpace(r[0]) && !IsSpace(r[|r| - 1])
  {
    var lead := LeadingSpace(s);
    if lead == |s| then
      assert SpaceAround(s, lead, []);
      []
    else
      var trail := TrailingSpace(s);
      assert lead < |s| - trail;
      var r := s[lead..|s| - trail];
      assert SpaceAround(s, lead, r);
      r
  }

  /** `trim()` returns the empty string exactly when its input is all white space. */
  lemma TrimEmptyIffBlank(s: string)
    ensures Trim(s) == [] <==> forall k :: 0 <= k < |s| ==> IsSpace(s[k])
  {
    var lead := LeadingSpace(s);
    if lead < |s| {
      assert !IsSpace(s[lead]);
    }
  }

  function LowerChar(c: char): char {
    if 'A' <= c <= 'Z' then (c as int + 32) as char else c
  }

  function UpperChar(c: char): char {
    if 'a' <= c <= 'z' then (c as int - 32) as char else c
  }

  /** `s.toLowerCase()`, code unit by code unit. */
  function ToLower(s: string): (r: string)
    ensures |r| == |s|
    ensures forall i :: 0 <= i < |s| ==> r[i] == LowerChar(s[i])
  {
    if s == [] then [] else [LowerChar(s[0])] + ToLower(s[1..])
  }

  /** `s.toUpperCase()`, code unit by code unit. */
  function ToUpper(s: string): (r: string)
    ensures |r| == |s|
    ensures forall i :: 0 <= i < |s| ==> r[i] == UpperChar(s[i])
  {
    if s == [] then [] else [UpperChar(s[0])] + ToUpper(s[1..])
  }

  /** `hay.includes(needle)`. */
  function Contains(hay: string, needle: string): (r: bool)
    ensures r <==> exists i :: 0 <= i <= |hay| && needle <= hay[i..]
    decreases |hay|
  {
    if needle <= hay then
      assert hay[0..] == hay;
      true
    else if hay == [] then
      false
    else
      assert hay[0..] == hay;
      assert forall i :: 1 <= i <= |hay| ==> hay[i..] == hay[1..][i - 1..];
      Contains(hay[1..], needle)
  }

  /** `words.join(' ')`. */
  function JoinWithSpace(words: seq<string>): string {
    if words == [] then []
    else if |words| == 1 then words[0]
    else words[0] + " " + JoinWithSpace(words[1..])
  }

  /** `s.split(' ')`: the pieces between the spaces of `s`, which `join(' ')` puts back together. */
  function Split(s: string): (words: seq<string>)
    ensures |words| >= 1
    ensures JoinWithSpace(words) == s
    ensures forall i :: 0 <= i < |words| ==> ' ' !in words[i]
  {
    if s == [] then [[]]
    else if s[0] == ' ' then
      var w := Split(s[1..]);
      assert ([[]] + w)[1..] == w;
      assert s == " " + s[1..];
      [[]] + w
    else
      var w := Split(s[1..]);
      var words := [[s[0]] + w[0]] + w[1..];
      assert s == [s[0]] + s[1..];
      if |w| == 1 then
        words
      else
        assert words[1..] == w[1..];
        assert JoinWithSpace(w) == w[0] + " " + JoinWithSpace(w[1..]);
        assert JoinWithSpace(words) == ([s[0]] + w[0]) + " " + JoinWithSpace(w[1..]);
        words
  }

  /** `words.map(n => n[0]).join('')`: `join` turns the `undefined` of an empty word into nothing. */
  function Heads(words: seq<string>): (r: string)
    ensures |r| <= |words|
  {
    if words == [] then []
    else (if words[0] == [] then [] else [words[0][0]]) + Heads(words[1..])
  }

  /**
   * Reference definition of the initials: the characters of `s` that are not a
   * space and stand at the start of `s` (when `atStart`) or right after a space.
   */
  function WordStarts(s: string, atStart: bool): (r: string)
    ensures forall i :: 0 <= i < |r| ==> r[i] != ' ' && r[i] in s
  {
    if s == [] then []
    else if s[0] == ' ' then WordStarts(s[1..], true)
    else (if atStart then [s[0]] else []) + WordStarts(s[1..], false)
  }

  function Take(s: string, n: nat): (r: string)
    ensures |r| == if |s| < n then |s| else n
    ensures r == s[..|r|]
  {
    if |s| <= n then s else s[..n]
  }

  /** `name.split(' ').map(n => n[0]).join('').toUpperCase().slice(0, 2)`. */
  function GetInitials(name: string): (r: string)
    ensures |r| <= 2
    ensures var starts := WordStarts(name, true);
            |r| == (if |starts| < 2 then |starts| else 2)
            && forall i :: 0 <= i < |r| ==> r[i] == UpperChar(starts[i])
  {
    SplitHeadsAreWordStarts(name);
    Take(ToUpper(Heads(Split(name))), 2)
  }

  lemma {:induction false} HeadsAppend(a: seq<string>, b: seq<string>)
    ensures Heads(a + b) == Heads(a) + Heads(b)
  {
    if a != [] {
      assert (a + b)[0] == a[0] && (a + b)[1..] == a[1..] + b;
      HeadsAppend(a[1..], b);
    } else {
      assert a + b == b;
    }
  }

  /**
   * Splitting on ' ' and taking the first character of every piece yields exactly the
   * word-start characters; the first piece runs up to the first space.
   */
  lemma {:induction false} SplitHeadsAreWordStarts(s: string)
    ensures Heads(Split(s)) == WordStarts(s, true)
    ensures Heads(Split(s)[1..]) == WordStarts(s, false)
  {
    if s == [] {
    } else if s[0] == ' ' {
      SplitHeadsAreWordStarts(s[1..]);
      HeadsAppend([[]], Split(s[1..]));
      assert Split(s)[1..] == Split(s[1..]);
    } else {
      SplitHeadsAreWordStarts(s[1..]);
      var w := Split(s[1..]);
      assert Split(s) == [[s[0]] + w[0]] + w[1..];
      HeadsAppend([[s[0]] + w[0]], w[1..]);
      assert Split(s)[1..] == w[1..];
    }
  }
}
