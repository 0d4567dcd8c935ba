/** Character and string helpers with Python's semantics: `str.isdigit`,
    `str.islower`/`upper`/`lower` on ASCII, and `str.split`/`str.join` with
    an explicit one-character separator. */
module Text {

  predicate IsDigit(c: char) { '0' <= c <= '9' }
  predicate IsLower(c: char) { 'a' <= c <= 'z' }
  predicate IsUpper(c: char) { 'A' <= c <= 'Z' }

  /** `int(c)` for a single digit character. */
  function DigitValue(c: char): (d: nat)
    requires IsDigit(c)
    ensures d <= 9
    ensures DigitChar(d) == c
  {
    c as int - '0' as int
  }

  /** `str(d)` for a one-digit number. */
  function DigitChar(d: nat): (c: char)
    requires d <= 9
    ensures IsDigit(c)
  {
    ('0' as int + d) as char
  }

  /** The case flip `_reverse_piece` applies: a lower-case letter becomes
      upper case, anything else goes through `lower()`, which changes only
      upper-case letters. */
  function SwapCase(c: char): (r: char)
    ensures IsLower(c) <==> IsUpper(r)
    ensures IsUpper(c) <==> IsLower(r)
    ensures !IsLower(c) && !IsUpper(c) ==> r == c
    ensures IsLower(c) || IsUpper(c) ==> r != c
    ensures IsLower(c) ==> r as int - 'A' as int == c as int - 'a' as int
    ensures IsUpper(c) ==> r as int - 'a' as int == c as int - 'A' as int
  {
    if IsLower(c) then (c as int - 32) as char
    else if IsUpper(c) then (c as int + 32) as char
    else c
  }

  lemma SwapCaseInvolution(c: char)
    ensures SwapCase(SwapCase(c)) == c
  {
  }

  /** Number of occurrences of `x` in `s`. */
  function CountChar(s: string, x: char): nat
  {
    if |s| == 0 then 0
    else CountChar(s[..|s|-1], x) + (if s[|s|-1] == x then 1 else 0)
  }

  /** `s.split(sep)`: empty fields are kept, so there is always one more
      field than there are separators. */
  function Split(s: string, sep: char): (parts: seq<string>)
    ensures |parts| == CountChar(s, sep) + 1
    ensures forall i :: 0 <= i < |parts| ==> sep !in parts[i]
  {
    if |s| == 0 then [[]]
    else
      var init := Split(s[..|s|-1], sep);
      var c := s[|s|-1];
      if c == sep then init + [[]]
      else init[..|init|-1] + [init[|init|-1] + [c]]
  }

  /** `sep.join(parts)`. */
  function Join(parts: seq<string>, sep: char): string
  {
    if |parts| == 0 then []
    else if |parts| == 1 then parts[0]
    else Join(parts[..|parts|-1], sep) + [sep] + parts[|parts|-1]
  }

  /** Joining the fields of a split gives back the original string. */
  lemma {:induction false} JoinSplit(s: string, sep: char)
    ensures Join(Split(s, sep), sep) == s
  {
    if |s| > 0 {
      var s' := s[..|s|-1];
      var init := Split(s', sep);
      JoinSplit(s', sep);
      if s[|s|-1] != sep {
        var parts := Split(s, sep);
        assert parts == init[..|init|-1] + [init[|init|-1] + [s[|s|-1]]];
        if |init| > 1 {
          assert parts[..|parts|-1] == init[..|init|-1];
          assert Join(init, sep) == Join(init[..|init|-1], sep) + [sep] + init[|init|-1];
        }
      }
      assert s == s' + [s[|s|-1]];
    }
  }

  /** A string without separators splits into itself. */
  lemma {:induction false} SplitNoSeparator(t: string, sep: char)
    requires sep !in t
    ensures Split(t, sep) == [t]
  {
    if |t| > 0 {
      SplitNoSeparator(t[..|t|-1], sep);
      assert t == t[..|t|-1] + [t[|t|-1]];
    }
  }

  /** Appending a separator and a separator-free tail adds exactly one field. */
  lemma {:induction false} SplitAppend(s: string, t: string, sep: char)
    requires sep !in t
    ensures Split(s + [sep] + t, sep) == Split(s, sep) + [t]
  {
    var u := s + [sep] + t;
    if |t| == 0 {
      assert u[..|u|-1] == s;
    } else {
      var t' := t[..|t|-1];
      assert u[..|u|-1] == s + [sep] + t';
      SplitAppend(s, t', sep);
      assert t == t' + [t[|t|-1]];
    }
  }

  /** Splitting the join of separator-free fields gives the fields back. */
  lemma {:induction false} SplitJoin(parts: seq<string>, sep: char)
    requires |parts| >= 1
    requires forall i :: 0 <= i < |parts| ==> sep !in parts[i]
    ensures Split(Join(parts, sep), sep) == parts
  {
    if |parts| == 1 {
      SplitNoSeparator(parts[0], sep);
    } else {
      var init := parts[..|parts|-1];
      SplitJoin(init, sep);
      SplitAppend(Join(init, sep), parts[|parts|-1], sep);
      assert init + [parts[|parts|-1]] == parts;
    }
  }

  /** Every character of a join is the separator or a character of a field. */
  lemma {:induction false} JoinCharacters(parts: seq<string>, sep: char, x: char)
    requires x in Join(parts, sep)
    ensures x == sep || exists i :: 0 <= i < |parts| && x in parts[i]
  {
    if |parts| > 1 {
      var init := parts[..|parts|-1];
      var j := Join(init, sep);
      if x in j && x != sep {
        JoinCharacters(init, sep, x);
        var i :| 0 <= i < |init| && x in init[i];
        assert x in parts[i];
      }
    }
  }

  /** Every character of a field of a split is a character of the string. */
  lemma {:induction false} SplitCharacters(s: string, sep: char, i: nat, x: char)
    requires i < |Split(s, sep)| && x in Split(s, sep)[i]
    ensures x in s
  {
    var s' := s[..|s|-1];
    var init := Split(s', sep);
    if x != s[|s|-1] {
      if i < |init| - 1 || (s[|s|-1] == sep && i < |init|) {
        SplitCharacters(s', sep, i, x);
      } else {
        assert x in init[|init|-1];
        SplitCharacters(s', sep, |init| - 1, x);
      }
      assert x in s';
    }
  }

  /** The fields of a split are read left to right as the string grows: the
      split of a prefix agrees with the split of the whole on every field but
      its last, and its last field is a prefix of the corresponding field. */
  lemma {:induction false} SplitPrefix(s: string, i: nat, sep: char)
    requires i <= |s|
    ensures var a, b := Split(s[..i], sep), Split(s, sep);
      |a| <= |b| && a[..|a|-1] == b[..|a|-1] && a[|a|-1] <= b[|a|-1]
  {
    if i == |s| {
      assert s[..i] == s;
    } else {
      var s' := s[..|s|-1];
      assert s'[..i] == s[..i];
      SplitPrefix(s', i, sep);
    }
  }

  /** `a` can be obtained from `b` by deleting characters. */
  predicate IsSubsequence(a: string, b: string)
  {
    |a| == 0 || (|b| > 0 && ((a[0] == b[0] && IsSubsequence(a[1..], b[1..])) || IsSubsequence(a, b[1..])))
  }

  predicate Distinct(w: string)
  {
    forall i, j :: 0 <= i < j < |w| ==> w[i] != w[j]
  }

  lemma {:induction false} SubsequenceCharacters(a: string, b: string, x: char)
    requires IsSubsequence(a, b) && x in a
    ensures x in b
  {
    if a[0] == b[0] && IsSubsequence(a[1..], b[1..]) {
      if x != a[0] {
        assert x in a[1..];
        SubsequenceCharacters(a[1..], b[1..], x);
      }
    } else {
      SubsequenceCharacters(a, b[1..], x);
    }
  }

  /** Over a word of distinct letters, a subsequence is fixed by which
      letters it contains. */
  lemma {:induction false} SubsequenceDeterminedByMembers(a: string, b: string, w: string)
    requires Distinct(w)
    requires IsSubsequence(a, w) && IsSubsequence(b, w)
    requires forall x :: x in a <==> x in b
    ensures a == b
  {
    if |w| > 0 {
      var w' := w[1..];
      assert Distinct(w');
      assert w[0] !in w' by {
        forall k | 0 <= k < |w'| ensures w'[k] != w[0] { assert w'[k] == w[k+1]; }
      }
      if w[0] in a {
        AtHead(a, w);
        AtHead(b, w);
        forall x ensures x in a[1..] <==> x in b[1..] {
          if x in a[1..] { SubsequenceCharacters(a[1..], w', x); }
          if x in b[1..] { SubsequenceCharacters(b[1..], w', x); }
          assert x in a <==> x == a[0] || x in a[1..];
          assert x in b <==> x == b[0] || x in b[1..];
        }
        SubsequenceDeterminedByMembers(a[1..], b[1..], w');
        assert a == [a[0]] + a[1..];
        assert b == [b[0]] + b[1..];
      } else {
        SkipHead(a, w);
        SkipHead(b, w);
        SubsequenceDeterminedByMembers(a, b, w');
      }
    }
  }

  lemma AtHead(a: string, w: string)
    requires Distinct(w) && |w| > 0 && IsSubsequence(a, w) && w[0] in a
    ensures |a| > 0 && a[0] == w[0] && IsSubsequence(a[1..], w[1..])
  {
    if !(a[0] == w[0] && IsSubsequence(a[1..], w[1..])) {
      SubsequenceCharacters(a, w[1..], w[0]);
    }
  }

  /** Keeping or dropping the first letter of `w` in front of a subsequence
      of the rest gives a subsequence of `w`. */
  lemma PrependOptional(keep: bool, w: string, rest: string)
    requires |w| > 0 && IsSubsequence(rest, w[1..])
    ensures IsSubsequence((if keep then [w[0]] else []) + rest, w)
  {
    if keep {
      assert ([w[0]] + rest)[1..] == rest;
    } else {
      assert [] + rest == rest;
    }
  }

  lemma SkipHead(a: string, w: string)
    requires |w| > 0 && IsSubsequence(a, w) && w[0] !in a
    ensures IsSubsequence(a, w[1..])
  {
    if |a| > 0 { assert a[0] in a; }
  }
}
