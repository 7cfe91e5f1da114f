/** The string primitives the INI scanner relies on: Go's `unicode.IsSpace`,
    `strings.TrimSpace`, `strings.Fields`, `strings.Join`, `strings.Index`
    (for one character), `strings.ContainsAny`, and decimal formatting of a
    line number.  Strings are sequences of Unicode code points. */
module Text {

  /** Go's `unicode.IsSpace`: the Latin-1 spaces (tab, line feed, vertical
      tab, form feed, carriage return, space, NEL, no-break space) and the
      ranges of Unicode's White_Space property above Latin-1. */
  predicate IsSpace(c: char) {
    var n := c as int;
    || (0x09 <= n <= 0x0D) || n == 0x20 || n == 0x85 || n == 0xA0
    || n == 0x1680 || (0x2000 <= n <= 0x200A) || n == 0x2028 || n == 0x2029
    || n == 0x202F || n == 0x205F || n == 0x3000
  }

  predicate AllSpace(s: string) {
    forall i :: 0 <= i < |s| ==> IsSpace(s[i])
  }

  predicate NoSpace(s: string) {
    forall i :: 0 <= i < |s| ==> !IsSpace(s[i])
  }

  /** A field of `Fields`: a non-empty run of non-space characters. */
  predicate IsWord(w: string) {
    w != [] && NoSpace(w)
  }

  /** A key or section name in normal form: the only whitespace is the ASCII
      space, it never starts or ends the string, and never comes twice in a row. */
  predicate IsNormal(k: string) {
    && (forall i :: 0 <= i < |k| && IsSpace(k[i]) ==> k[i] == ' ')
    && (k != [] ==> !IsSpace(k[0]) && !IsSpace(k[|k| - 1]))
    && (forall i :: 0 <= i < |k| - 1 && k[i] == ' ' ==> k[i + 1] != ' ')
  }

  /** The number of whitespace characters that begin `s`. */
  function LeadingSpace(s: string): (n: nat)
    ensures n <= |s|
    ensures forall i :: 0 <= i < n ==> IsSpace(s[i])
    ensures n < |s| ==> !IsSpace(s[n])
  {
    if s != [] && IsSpace(s[0]) then 1 + LeadingSpace(s[1..]) else 0
  }

  /** The number of whitespace characters that end `s`. */
  function TrailingSpace(s: string): (n: nat)
    ensures n <= |s|
    ensures forall i :: |s| - n <= i < |s| ==> IsSpace(s[i])
    ensures n < |s| ==> !IsSpace(s[|s| - n - 1])
  {
    if s != [] && IsSpace(s[|s| - 1]) then 1 + TrailingSpace(s[..|s| - 1]) else 0
  }

  /** Go's `strings.TrimSpace`: `s` with its leading and trailing whitespace
      removed and its interior left as it is. */
  function TrimSpace(s: string): (r: string)
    ensures |r| <= |s|
    ensures r != [] ==> !IsSpace(r[0]) && !IsSpace(r[|r| - 1])
    ensures r == [] <==> AllSpace(s)
  {
    TrimmedSpan(s);
    var t := s[LeadingSpace(s)..];
    t[..|t| - TrailingSpace(t)]
  }

  /** What `TrimSpace` keeps: one contiguous part of `s`, with only
      whitespace around it. */
  lemma TrimSpaceSpan(s: string)
    ensures var r := TrimSpace(s);
      && LeadingSpace(s) + |r| <= |s| && r == s[LeadingSpace(s)..LeadingSpace(s) + |r|]
      && (forall i :: 0 <= i < |s| && !(LeadingSpace(s) <= i < LeadingSpace(s) + |r|) ==> IsSpace(s[i]))
  {
    TrimmedSpan(s);
  }

  lemma TrimmedSpan(s: string)
    ensures var t := s[LeadingSpace(s)..];
      var r := t[..|t| - TrailingSpace(t)];
      && LeadingSpace(s) + |r| <= |s| && r == s[LeadingSpace(s)..LeadingSpace(s) + |r|]
      && (forall i :: 0 <= i < |s| && !(LeadingSpace(s) <= i < LeadingSpace(s) + |r|) ==> IsSpace(s[i]))
  {
  }

  /** The longest prefix of `s` that holds no whitespace. */
  function Word(s: string): (w: string)
    ensures |w| <= |s| && w == s[..|w|] && NoSpace(w)
    ensures |w| < |s| ==> IsSpace(s[|w|])
    ensures s != [] && !IsSpace(s[0]) ==> |w| >= 1
  {
    if s == [] || IsSpace(s[0]) then [] else [s[0]] + Word(s[1..])
  }

  /** Go's `strings.Fields`: the maximal runs of non-space characters of `s`,
      in order. */
  function Fields(s: string): (ws: seq<string>)
    ensures forall k :: 0 <= k < |ws| ==> IsWord(ws[k])
    ensures ws == [] <==> AllSpace(s)
    decreases |s|
  {
    var t := s[LeadingSpace(s)..];
    if t == [] then []
    else
      var w := Word(t);
      var rest := Fields(t[|w|..]);
      [w] + rest
  }

  /** Go's `strings.Join`. */
  function Join(ws: seq<string>, sep: string): (r: string)
    ensures ws == [] ==> r == []
    ensures |ws| == 1 ==> r == ws[0]
  {
    if ws == [] then "" else if |ws| == 1 then ws[0] else ws[0] + sep + Join(ws[1..], sep)
  }

  /** ini.go's `cleanKey`: the fields of `key` joined by single spaces, so
      every run of whitespace collapses to one space and the ends are
      trimmed.  The result is empty exactly when `key` is all whitespace. */
  function CleanKey(key: string): (r: string)
    ensures r == [] <==> AllSpace(key)
  {
    JoinNormal(Fields(key));
    Join(Fields(key), " ")
  }

  /** A normalised key is in normal form: no whitespace but single inner
      spaces. */
  lemma CleanKeyNormal(key: string)
    ensures IsNormal(CleanKey(key))
  {
    JoinNormal(Fields(key));
  }

  /** Normalising keeps the fields: the same non-space runs, in the same
      order. */
  lemma CleanKeyFields(key: string)
    ensures Fields(CleanKey(key)) == Fields(key)
  {
    JoinNormal(Fields(key));
    FieldsOfJoin(Fields(key));
  }

  /** Normalising twice is normalising once. */
  lemma CleanKeyIdempotent(key: string)
    ensures CleanKey(CleanKey(key)) == CleanKey(key)
  {
    CleanKeyFields(key);
  }

  /** A word, one space and a non-empty normal string form a normal string. */
  lemma NormalCons(w: string, j: string)
    requires IsWord(w) && IsNormal(j) && j != []
    ensures IsNormal(w + " " + j)
  {
    var r := w + " " + j;
    forall i | 0 <= i < |r|
      ensures IsSpace(r[i]) ==> r[i] == ' '
    {
      if i < |w| {
        assert r[i] == w[i];
      } else if i > |w| {
        assert r[i] == j[i - |w| - 1];
      }
    }
    forall i | 0 <= i < |r| - 1
      ensures r[i] == ' ' ==> r[i + 1] != ' '
    {
      if i < |w| {
        assert r[i] == w[i];
      } else if i > |w| {
        assert r[i] == j[i - |w| - 1] && r[i + 1] == j[i - |w|];
      } else {
        assert r[i + 1] == j[0];
      }
    }
    assert r[|r| - 1] == j[|j| - 1];
  }

  /** Joining words with single spaces gives a normal string, empty only
      when there are no words. */
  lemma {:induction false} JoinNormal(ws: seq<string>)
    requires forall k :: 0 <= k < |ws| ==> IsWord(ws[k])
    ensures IsNormal(Join(ws, " "))
    ensures Join(ws, " ") == [] <==> ws == []
    ensures ws != [] ==> Join(ws, " ")[0] == ws[0][0]
  {
    if |ws| == 1 {
      var w := ws[0];
      assert IsWord(w);
    } else if |ws| > 1 {
      JoinNormal(ws[1..]);
      assert IsWord(ws[0]) && IsWord(ws[1..][0]);
      NormalCons(ws[0], Join(ws[1..], " "));
    }
  }

  /** Leading whitespace does not change the fields of a string. */
  lemma FieldsSkipsSpace(x: string)
    requires x != [] && IsSpace(x[0])
    ensures Fields(x) == Fields(x[1..])
  {
    assert x[LeadingSpace(x)..] == x[1..][LeadingSpace(x[1..])..];
  }

  /** The word at the head of `w + rest` is `w` when `rest` starts with a space. */
  lemma WordOfCons(w: string, rest: string)
    requires IsWord(w)
    requires rest == [] || IsSpace(rest[0])
    ensures Word(w + rest) == w
  {
    var s := w + rest;
    assert s[..|w|] == w;
  }

  /** A single word is its own only field. */
  lemma FieldsOfWord(w: string)
    requires IsWord(w)
    ensures Fields(w) == [w]
  {
    assert LeadingSpace(w) == 0;
    WordOfCons(w, []);
    assert w + [] == w;
  }

  /** A word followed by one space and a normal string: the word is the
      first field and the fields of the rest follow. */
  lemma FieldsOfCons(w: string, j: string)
    requires IsWord(w) && IsNormal(j) && j != []
    ensures Fields(w + " " + j) == [w] + Fields(j)
  {
    var s := w + " " + j;
    assert s == w + (" " + j);
    assert LeadingSpace(s) == 0 by { assert s[0] == w[0]; }
    WordOfCons(w, " " + j);
    assert s[|w|..] == " " + j;
    FieldsSkipsSpace(" " + j);
    assert (" " + j)[1..] == j;
  }

  /** Splitting words joined by single spaces gives the words back. */
  lemma {:induction false} FieldsOfJoin(ws: seq<string>)
    requires forall k :: 0 <= k < |ws| ==> IsWord(ws[k])
    ensures Fields(Join(ws, " ")) == ws
  {
    if |ws| == 1 {
      FieldsOfWord(ws[0]);
    } else if |ws| > 1 {
      assert IsWord(ws[0]) && IsWord(ws[1..][0]);
      JoinNormal(ws[1..]);
      FieldsOfJoin(ws[1..]);
      FieldsOfCons(ws[0], Join(ws[1..], " "));
      assert ws == [ws[0]] + ws[1..];
    }
  }

  /** The leading-space count is the only split of `s` into whitespace
      followed by a non-space character (or the end). */
  lemma LeadingSpaceUnique(s: string, n: nat)
    requires n <= |s| && (forall i :: 0 <= i < n ==> IsSpace(s[i]))
    requires n < |s| ==> !IsSpace(s[n])
    ensures LeadingSpace(s) == n
  {
  }

  /** The same for the trailing-space count. */
  lemma TrailingSpaceUnique(s: string, n: nat)
    requires n <= |s| && (forall i :: |s| - n <= i < |s| ==> IsSpace(s[i]))
    requires n < |s| ==> !IsSpace(s[|s| - n - 1])
    ensures TrailingSpace(s) == n
  {
  }

  /** `TrimSpace` keeps exactly the part between the surrounding whitespace:
      any `s[a..b]` with only whitespace outside it and non-space characters
      at both of its ends is the trimmed string. */
  lemma TrimSpaceOf(s: string, a: nat, b: nat)
    requires a <= b <= |s|
    requires forall i :: 0 <= i < a ==> IsSpace(s[i])
    requires forall i :: b <= i < |s| ==> IsSpace(s[i])
    requires a < b ==> !IsSpace(s[a]) && !IsSpace(s[b - 1])
    ensures TrimSpace(s) == s[a..b]
  {
    if a < b {
      LeadingSpaceUnique(s, a);
      var t := s[a..];
      TrailingSpaceUnique(t, |s| - b);
      assert t[..|t| - (|s| - b)] == s[a..b];
    } else {
      assert AllSpace(s) by {
        forall i | 0 <= i < |s| ensures IsSpace(s[i]) {
          if i < a {
          }
        }
      }
    }
  }

  /** The first field of whitespace, a word and a rest that starts with
      whitespace (or is empty) is that word. */
  lemma FieldsOfSpaced(sp: string, w: string, rest: string)
    requires AllSpace(sp) && IsWord(w) && (rest == [] || IsSpace(rest[0]))
    ensures Fields(sp + w + rest) == [w] + Fields(rest)
  {
    var s := sp + w + rest;
    assert s[|sp|] == w[0];
    LeadingSpaceUnique(s, |sp|);
    var t := s[|sp|..];
    assert t == w + rest;
    WordOfCons(w, rest);
    assert t[|w|..] == rest;
  }

  /** Whitespace at the end of a string does not change its fields. */
  lemma {:induction false} FieldsAppendSpace(x: string, c: char)
    requires IsSpace(c)
    ensures Fields(x + [c]) == Fields(x)
    decreases |x|
  {
    var s := x + [c];
    var n := LeadingSpace(x);
    if n == |x| {
      assert AllSpace(s) by {
        forall i | 0 <= i < |s| ensures IsSpace(s[i]) {
          if i < |x| {
            assert s[i] == x[i];
          }
        }
      }
      assert AllSpace(x);
    } else {
      assert s[n] == x[n];
      LeadingSpaceUnique(s, n);
      var t := x[n..];
      assert s[n..] == t + [c];
      var w := Word(t);
      if |w| < |t| {
        WordUnique(t + [c], |w|);
        assert (t + [c])[..|w|] == w;
        assert (t + [c])[|w|..] == t[|w|..] + [c];
        FieldsAppendSpace(t[|w|..], c);
      } else {
        assert w == t;
        WordOfCons(t, [c]);
        assert (t + [c])[|w|..] == [c];
        assert AllSpace([c]);
        assert t[|w|..] == [];
      }
    }
  }

  /** The longest non-space prefix is the only prefix of non-space
      characters followed by whitespace (or the end). */
  lemma WordUnique(s: string, n: nat)
    requires n <= |s| && (forall i :: 0 <= i < n ==> !IsSpace(s[i]))
    requires n < |s| ==> IsSpace(s[n])
    ensures Word(s) == s[..n]
  {
  }

  /** Trailing whitespace does not change a normalised key. */
  lemma CleanKeyAppendSpace(x: string, c: char)
    requires IsSpace(c)
    ensures CleanKey(x + [c]) == CleanKey(x)
  {
    FieldsAppendSpace(x, c);
  }

  /** Go's `strings.Index` for a one-character pattern: the first position of
      `c` in `s`, or -1. */
  function IndexOf(s: string, c: char): (i: int)
    ensures -1 <= i < |s|
    ensures i >= 0 ==> s[i] == c && c !in s[..i]
    ensures i < 0 <==> c !in s
  {
    if s == [] then -1
    else if s[0] == c then 0
    else
      var j := IndexOf(s[1..], c);
      assert s == [s[0]] + s[1..];
      if j < 0 then -1
      else
        assert s[..j + 1] == [s[0]] + s[1..][..j];
        j + 1
  }

  /** Go's `strings.ContainsAny`. */
  function ContainsAny(s: string, chars: string): (b: bool)
    ensures b <==> exists i :: 0 <= i < |s| && s[i] in chars
  {
    if s == [] then false
    else if s[0] in chars then true
    else
      var b := ContainsAny(s[1..], chars);
      assert forall i :: 1 <= i < |s| ==> s[i] == s[1..][i - 1];
      b
  }

  /** The decimal digits of `n`, as `fmt` prints an integer with `%d`. */
  function Decimal(n: nat): (s: string)
    ensures |s| >= 1
    ensures forall i :: 0 <= i < |s| ==> '0' <= s[i] <= '9'
    ensures s[0] == '0' ==> n == 0
  {
    if n < 10 then [Digit(n)] else Decimal(n / 10) + [Digit(n % 10)]
  }

  function Digit(d: nat): (c: char)
    requires d < 10
    ensures '0' <= c <= '9'
  {
    ('0' as int + d) as char
  }

  /** Reading back the digits `Decimal` prints gives the number. */
  lemma {:induction false} DecimalRoundTrip(n: nat)
    ensures DecimalValue(Decimal(n)) == n
  {
    if n >= 10 {
      DecimalRoundTrip(n / 10);
      var s := Decimal(n);
      assert s[..|s| - 1] == Decimal(n / 10);
    }
  }

  /** The number that a string of decimal digits denotes. */
  function DecimalValue(s: string): nat
    requires forall i :: 0 <= i < |s| ==> '0' <= s[i] <= '9'
  {
    if s == [] then 0
    else DecimalValue(s[..|s| - 1]) * 10 + (s[|s| - 1] as int - '0' as int)
  }
}
