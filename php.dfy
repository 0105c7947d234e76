/**
 * The PHP built-ins the exporter relies on, on strings and lists of strings:
 * trim, strtolower, ucfirst, ltrim with a character, str_starts_with,
 * substring search, explode and implode, the truthiness of a string, and
 * array_unique / array_filter over a list of strings.
 *
 * Strings are sequences of characters; PHP 8 string functions used here
 * work on ASCII letters only (strtolower and ucfirst are locale-independent).
 */
module Php {

  // ---------------------------------------------------------------------
  // Characters
  // ---------------------------------------------------------------------

  /** The characters trim() removes when it is given no character list. */
  predicate IsBlank(c: char) {
    c == ' ' || c == '\t' || c == '\n' || c == '\r' || c == '\0' || c == '\U{000B}'
  }

  predicate IsUpper(c: char) { 'A' <= c <= 'Z' }

  predicate IsLower(c: char) { 'a' <= c <= 'z' }

  function LowerChar(c: char): (d: char)
    ensures !IsUpper(d)
    ensures IsBlank(d) <==> IsBlank(c)
  {
    if IsUpper(c) then (c as int + 32) as char else c
  }

  // ---------------------------------------------------------------------
  // String functions
  // ---------------------------------------------------------------------

  /** strtolower: every ASCII capital replaced by its small letter. */
  function Lower(s: string): (r: string)
    ensures |r| == |s|
    ensures forall i :: 0 <= i < |r| ==> r[i] == LowerChar(s[i])
  {
    seq(|s|, i requires 0 <= i < |s| => LowerChar(s[i]))
  }

  /** How many blanks trim() removes at the front. */
  function LeadingBlanks(s: string): (n: nat)
    ensures n <= |s|
    decreases |s|
  {
    if s != [] && IsBlank(s[0]) then 1 + LeadingBlanks(s[1..]) else 0
  }

  /** How many blanks trim() removes at the back. */
  function TrailingBlanks(s: string): (n: nat)
    ensures n <= |s|
    decreases |s|
  {
    if s != [] && IsBlank(s[|s| - 1]) then 1 + TrailingBlanks(s[..|s| - 1]) else 0
  }

  function TrimLeft(s: string): string {
    s[LeadingBlanks(s)..]
  }

  function TrimRight(s: string): string {
    s[..|s| - TrailingBlanks(s)]
  }

  /** trim() with its default character list. */
  function Trim(s: string): string {
    TrimRight(TrimLeft(s))
  }

  /** The leading run is all blank and stops at the first character that is not. */
  lemma {:induction false} LeadingBlanksAreBlank(s: string)
    ensures forall i :: 0 <= i < LeadingBlanks(s) ==> IsBlank(s[i])
    ensures LeadingBlanks(s) < |s| ==> !IsBlank(s[LeadingBlanks(s)])
    decreases |s|
  {
    if s != [] && IsBlank(s[0]) {
      LeadingBlanksAreBlank(s[1..]);
      assert forall i :: 0 < i < |s| ==> s[1..][i - 1] == s[i];
    }
  }

  /** The trailing run is all blank and stops at the last character that is not. */
  lemma {:induction false} TrailingBlanksAreBlank(s: string)
    ensures forall i :: |s| - TrailingBlanks(s) <= i < |s| ==> IsBlank(s[i])
    ensures TrailingBlanks(s) < |s| ==> !IsBlank(s[|s| - TrailingBlanks(s) - 1])
    decreases |s|
  {
    if s != [] && IsBlank(s[|s| - 1]) {
      TrailingBlanksAreBlank(s[..|s| - 1]);
      assert forall i :: 0 <= i < |s| - 1 ==> s[..|s| - 1][i] == s[i];
    }
  }

  /** trim() removes only blanks, and what it leaves neither starts nor ends
      with one. */
  lemma TrimEnds(s: string)
    ensures var t := Trim(s);
      (t == [] || (!IsBlank(t[0]) && !IsBlank(t[|t| - 1])))
      && (exists a, b :: 0 <= a <= b <= |s| && t == s[a..b]
            && (forall i :: 0 <= i < a ==> IsBlank(s[i]))
            && (forall i :: b <= i < |s| ==> IsBlank(s[i])))
  {
    var l := TrimLeft(s);
    var a := LeadingBlanks(s);
    var b := a + |l| - TrailingBlanks(l);
    LeadingBlanksAreBlank(s);
    TrailingBlanksAreBlank(l);
    assert forall i :: a <= i < |s| ==> s[i] == l[i - a];
    assert Trim(s) == s[a..b];
  }

  /** A string that neither starts nor ends with a blank is its own trim. */
  lemma TrimOfTrimmed(s: string)
    requires s == [] || (!IsBlank(s[0]) && !IsBlank(s[|s| - 1]))
    ensures Trim(s) == s
  {
  }

  /** ucfirst: the first character upper-cased when it is an ASCII small letter. */
  function Ucfirst(s: string): (r: string)
    ensures |r| == |s|
    ensures |s| > 0 ==> r[1..] == s[1..]
    ensures |s| > 0 ==> r[0] == (if IsLower(s[0]) then (s[0] as int - 32) as char else s[0])
  {
    if s != [] && IsLower(s[0]) then [(s[0] as int - 32) as char] + s[1..] else s
  }

  /** ltrim(s, c): every leading occurrence of c removed. */
  function LtrimChar(s: string, c: char): (r: string)
    ensures |r| <= |s|
    ensures r == s[|s| - |r|..]
    ensures r != [] ==> r[0] != c
    ensures forall i :: 0 <= i < |s| - |r| ==> s[i] == c
    decreases |s|
  {
    if s != [] && s[0] == c then LtrimChar(s[1..], c) else s
  }

  /** str_starts_with. */
  predicate StartsWith(s: string, prefix: string) {
    |prefix| <= |s| && s[..|prefix|] == prefix
  }

  /** Whether t occurs in s (what a regex match on a literal pattern decides). */
  predicate Contains(s: string, t: string)
    decreases |s|
  {
    StartsWith(s, t) || (s != [] && Contains(s[1..], t))
  }

  /** t occurs in s at index i. */
  predicate OccursAt(s: string, t: string, i: int) {
    0 <= i <= |s| - |t| && s[i..i + |t|] == t
  }

  /** Contains, by position: t occurs at some index of s. */
  lemma {:induction false} ContainsAt(s: string, t: string)
    ensures Contains(s, t) <==> exists i :: OccursAt(s, t, i)
    decreases |s|
  {
    if StartsWith(s, t) {
      assert OccursAt(s, t, 0);
    } else if s == [] {
      assert forall i :: !OccursAt(s, t, i);
    } else {
      var r := s[1..];
      ContainsAt(r, t);
      if exists i :: OccursAt(r, t, i) {
        var i :| OccursAt(r, t, i);
        assert s[i + 1..i + 1 + |t|] == r[i..i + |t|];
        assert OccursAt(s, t, i + 1);
      }
      if exists i :: OccursAt(s, t, i) {
        var i :| OccursAt(s, t, i);
        assert i != 0;
        assert r[i - 1..i - 1 + |t|] == s[i..i + |t|];
        assert OccursAt(r, t, i - 1);
      }
    }
  }

  /** A string is falsy in PHP when it is empty or exactly "0". */
  predicate Truthy(s: string) {
    s != "" && s != "0"
  }

  // ---------------------------------------------------------------------
  // explode and implode on a one-character delimiter
  // ---------------------------------------------------------------------

  function IndexOf(s: string, c: char): (i: nat)
    requires c in s
    ensures i < |s| && s[i] == c && c !in s[..i]
  {
    if s[0] == c then 0 else 1 + IndexOf(s[1..], c)
  }

  /** explode(sep, s): the pieces between the delimiters, at least one. */
  function Explode(sep: char, s: string): (parts: seq<string>)
    ensures |parts| >= 1
    decreases |s|
  {
    if sep in s then
      var i := IndexOf(s, sep);
      [s[..i]] + Explode(sep, s[i + 1..])
    else
      [s]
  }

  /** implode(sep, parts). */
  function Join(sep: char, parts: seq<string>): string
    decreases |parts|
  {
    if parts == [] then ""
    else if |parts| == 1 then parts[0]
    else parts[0] + [sep] + Join(sep, parts[1..])
  }

  /** No piece of an explode contains the delimiter. */
  lemma {:induction false} ExplodePiecesHaveNoDelimiter(sep: char, s: string)
    ensures forall p :: p in Explode(sep, s) ==> sep !in p
    decreases |s|
  {
    if sep in s {
      var i := IndexOf(s, sep);
      ExplodePiecesHaveNoDelimiter(sep, s[i + 1..]);
    }
  }

  /** Joining a piece in front of at least one other. */
  lemma JoinCons(sep: char, a: string, rest: seq<string>)
    requires |rest| >= 1
    ensures Join(sep, [a] + rest) == a + [sep] + Join(sep, rest)
  {
    assert ([a] + rest)[1..] == rest;
  }

  /** Joining the pieces of an explode with the same delimiter gives back the string. */
  lemma {:induction false} JoinExplode(sep: char, s: string)
    ensures Join(sep, Explode(sep, s)) == s
    decreases |s|
  {
    if sep in s {
      var i := IndexOf(s, sep);
      var tail := s[i + 1..];
      var rest := Explode(sep, tail);
      JoinExplode(sep, tail);
      JoinCons(sep, s[..i], rest);
      assert s == s[..i] + [sep] + tail;
    }
  }

  lemma {:induction false} IndexOfAfterFreePrefix(a: string, c: char, b: string)
    requires c !in a
    ensures c in a + [c] + b && IndexOf(a + [c] + b, c) == |a|
    decreases |a|
  {
    var s := a + [c] + b;
    assert s[|a|] == c;
    if a != [] {
      assert s[1..] == a[1..] + [c] + b;
      IndexOfAfterFreePrefix(a[1..], c, b);
    }
  }

  /** And exploding a join of delimiter-free pieces gives back the pieces. */
  lemma {:induction false} ExplodeJoin(sep: char, parts: seq<string>)
    requires |parts| >= 1
    requires forall p :: p in parts ==> sep !in p
    ensures Explode(sep, Join(sep, parts)) == parts
    decreases |parts|
  {
    if |parts| > 1 {
      var s := Join(sep, parts);
      var rest := Join(sep, parts[1..]);
      assert s == parts[0] + [sep] + rest;
      assert parts[0] in parts;
      IndexOfAfterFreePrefix(parts[0], sep, rest);
      var i := IndexOf(s, sep);
      assert s[..i] == parts[0];
      assert s[i + 1..] == rest;
      ExplodeJoin(sep, parts[1..]);
    } else {
      assert parts[0] in parts;
      assert Join(sep, parts) == parts[0];
    }
  }

  // ---------------------------------------------------------------------
  // array_filter and array_unique on a list of strings
  // ---------------------------------------------------------------------

  predicate NoDuplicates<T(==)>(s: seq<T>) {
    forall i, j :: 0 <= i < j < |s| ==> s[i] != s[j]
  }

  /** array_filter without a callback: the falsy strings dropped, the rest in order. */
  function NonFalsy(s: seq<string>): (r: seq<string>)
    ensures forall x :: x in r <==> x in s && Truthy(x)
    ensures |r| <= |s|
    decreases |s|
  {
    if s == [] then []
    else
      var r := NonFalsy(s[..|s| - 1]);
      assert s == s[..|s| - 1] + [s[|s| - 1]];
      if Truthy(s[|s| - 1]) then r + [s[|s| - 1]] else r
  }

  /** array_unique: each value kept at its first occurrence, later repeats dropped. */
  function Unique(s: seq<string>): (u: seq<string>)
    ensures NoDuplicates(u)
    ensures forall x :: x in u <==> x in s
    ensures |u| <= |s|
    decreases |s|
  {
    if s == [] then []
    else
      var u := Unique(s[..|s| - 1]);
      assert s == s[..|s| - 1] + [s[|s| - 1]];
      if s[|s| - 1] in u then u else u + [s[|s| - 1]]
  }

  /** The position of the first occurrence of x in s. */
  function FirstIndex(s: seq<string>, x: string): (i: nat)
    requires x in s
    ensures i < |s| && s[i] == x && x !in s[..i]
  {
    if s[0] == x then 0 else 1 + FirstIndex(s[1..], x)
  }

  lemma {:induction false} FirstIndexOfExtension(s: seq<string>, x: string, y: string)
    requires y in s
    ensures y in s + [x] && FirstIndex(s + [x], y) == FirstIndex(s, y)
  {
    if s[0] != y {
      assert (s + [x])[1..] == s[1..] + [x];
      FirstIndexOfExtension(s[1..], x, y);
    }
  }

  /** Unique lists the values of s in the order of their first occurrences. */
  lemma {:induction false} UniqueKeepsFirstOccurrenceOrder(s: seq<string>)
    ensures forall i, j :: 0 <= i < j < |Unique(s)| ==>
      FirstIndex(s, Unique(s)[i]) < FirstIndex(s, Unique(s)[j])
    decreases |s|
  {
    if s != [] {
      var s', x := s[..|s| - 1], s[|s| - 1];
      assert s == s' + [x];
      var u' := Unique(s');
      UniqueKeepsFirstOccurrenceOrder(s');
      forall y | y in u' ensures FirstIndex(s, y) == FirstIndex(s', y) {
        FirstIndexOfExtension(s', x, y);
      }
      if x !in u' {
        assert FirstIndex(s, x) == |s'| by {
          assert s[|s'|] == x && x !in s[..|s'|];
        }
        forall i, j | 0 <= i < j < |Unique(s)|
          ensures FirstIndex(s, Unique(s)[i]) < FirstIndex(s, Unique(s)[j])
        {
          assert Unique(s) == u' + [x];
          assert Unique(s)[i] == u'[i] && Unique(s)[i] in u';
          if j < |u'| {
            assert Unique(s)[j] == u'[j] && Unique(s)[j] in u';
          } else {
            assert Unique(s)[j] == x;
          }
        }
      }
    }
  }

  /** A list without repeats is left as it is. */
  lemma {:induction false} UniqueOfDistinct(s: seq<string>)
    requires NoDuplicates(s)
    ensures Unique(s) == s
    decreases |s|
  {
    if s != [] {
      var s' := s[..|s| - 1];
      assert s == s' + [s[|s| - 1]];
      UniqueOfDistinct(s');
      assert s[|s| - 1] !in s';
    }
  }

  /** A list of truthy strings passes array_filter unchanged. */
  lemma {:induction false} NonFalsyOfTruthy(s: seq<string>)
    requires forall x :: x in s ==> Truthy(x)
    ensures NonFalsy(s) == s
    decreases |s|
  {
    if s != [] {
      var s' := s[..|s| - 1];
      assert s == s' + [s[|s| - 1]];
      NonFalsyOfTruthy(s');
    }
  }
}
