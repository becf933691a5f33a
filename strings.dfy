/** The parts of Python's str type that the archive code relies on: count, split, join,
    replace, startswith, strip, and str() of a non-negative int. */
module Strings {

  /** Number of occurrences of the character c in s. */
  function Count(s: string, c: char): nat
  {
    if s == [] then 0 else (if s[0] == c then 1 else 0) + Count(s[1..], c)
  }

  lemma {:induction false} CountConcat(a: string, b: string, c: char)
    ensures Count(a + b, c) == Count(a, c) + Count(b, c)
  {
    if a != [] {
      var ab := a + b;
      assert ab[0] == a[0] && ab[1..] == a[1..] + b;
      CountConcat(a[1..], b, c);
      assert Count(ab, c) == (if a[0] == c then 1 else 0) + Count(a[1..] + b, c);
    } else {
      assert a + b == b;
    }
  }

  lemma {:induction false} CountZero(s: string, c: char)
    ensures Count(s, c) == 0 <==> c !in s
  {
    if s != [] {
      CountZero(s[1..], c);
      assert s == [s[0]] + s[1..];
    }
  }

  /** Python's sep.join(parts). */
  function Join(parts: seq<string>, sep: string): string
  {
    if parts == [] then ""
    else if |parts| == 1 then parts[0]
    else parts[0] + sep + Join(parts[1..], sep)
  }

  lemma JoinCons(p: string, parts: seq<string>, sep: string)
    requires parts != []
    ensures Join([p] + parts, sep) == p + sep + Join(parts, sep)
  {
    assert ([p] + parts)[1..] == parts;
  }

  lemma {:induction false} JoinSnoc(parts: seq<string>, p: string, sep: string)
    requires parts != []
    ensures Join(parts + [p], sep) == Join(parts, sep) + sep + p
  {
    if |parts| > 1 {
      assert (parts + [p])[1..] == parts[1..] + [p];
      JoinSnoc(parts[1..], p, sep);
    }
  }

  /** Python's s.split(d) for a one-character separator d: the pieces between the
      separators, so there is always one more piece than there are separators. */
  function Split(s: string, d: char): (parts: seq<string>)
    ensures |parts| == Count(s, d) + 1
    ensures forall i :: 0 <= i < |parts| ==> d !in parts[i]
  {
    if s == [] then [""]
    else
      var rest := Split(s[1..], d);
      if s[0] == d then [""] + rest
      else [[s[0]] + rest[0]] + rest[1..]
  }

  /** Joining the pieces again with the separator gives back the original string. */
  lemma {:induction false} SplitJoin(s: string, d: char)
    ensures Join(Split(s, d), [d]) == s
  {
    if s != [] {
      var rest := Split(s[1..], d);
      SplitJoin(s[1..], d);
      if s[0] == d {
        assert Split(s, d) == [""] + rest;
        assert ([""] + rest)[1..] == rest;
      } else {
        var parts := [[s[0]] + rest[0]] + rest[1..];
        assert Split(s, d) == parts;
        if |rest| > 1 {
          assert parts[1..] == rest[1..];
          assert Join(rest, [d]) == rest[0] + [d] + Join(rest[1..], [d]);
        }
      }
    }
  }

  /** A string without the separator splits into itself alone. */
  lemma {:induction false} SplitNoSeparator(a: string, d: char)
    requires d !in a
    ensures Split(a, d) == [a]
  {
    if a != [] {
      SplitNoSeparator(a[1..], d);
      assert [a[0]] + a[1..] == a;
    }
  }

  /** Splitting at the first separator. */
  lemma {:induction false} SplitAtFirst(a: string, rest: string, d: char)
    requires d !in a
    ensures Split(a + [d] + rest, d) == [a] + Split(rest, d)
  {
    var s := a + [d] + rest;
    if a == [] {
      assert s[0] == d && s[1..] == rest;
    } else {
      assert s[0] == a[0] && s[1..] == a[1..] + [d] + rest;
      SplitAtFirst(a[1..], rest, d);
      assert [a[0]] + a[1..] == a;
    }
  }

  /** Splitting the joined pieces gives them back when none holds the separator. */
  lemma {:induction false} JoinSplit(parts: seq<string>, d: char)
    requires parts != [] && forall i :: 0 <= i < |parts| ==> d !in parts[i]
    ensures Split(Join(parts, [d]), d) == parts
  {
    if |parts| == 1 {
      SplitNoSeparator(parts[0], d);
    } else {
      JoinSplit(parts[1..], d);
      SplitAtFirst(parts[0], Join(parts[1..], [d]), d);
      assert [parts[0]] + parts[1..] == parts;
    }
  }

  /** Python's s.startswith(p). */
  predicate StartsWith(s: string, p: string)
  {
    |p| <= |s| && s[..|p|] == p
  }

  /** Python's s.replace(pat, rep): the non-overlapping occurrences of pat, found scanning
      from the left, are replaced by rep; an empty pat puts rep before every character and
      at the end. */
  function Replace(s: string, pat: string, rep: string): string
    decreases |s|
  {
    if pat == [] then
      (if s == [] then rep else rep + [s[0]] + Replace(s[1..], pat, rep))
    else if |s| < |pat| then s
    else if s[..|pat|] == pat then rep + Replace(s[|pat|..], pat, rep)
    else [s[0]] + Replace(s[1..], pat, rep)
  }

  /** pat occurs somewhere in s. */
  predicate Occurs(s: string, pat: string)
    decreases |s|
  {
    if |s| < |pat| then false else s[..|pat|] == pat || (s != [] && Occurs(s[1..], pat))
  }

  /** Replacing a pattern that does not occur changes nothing. */
  lemma {:induction false} ReplaceAbsent(s: string, pat: string, rep: string)
    requires pat != [] && !Occurs(s, pat)
    ensures Replace(s, pat, rep) == s
    decreases |s|
  {
    if |s| >= |pat| {
      ReplaceAbsent(s[1..], pat, rep);
    }
  }

  /** Every character of the result comes from s or from rep. */
  lemma {:induction false} ReplaceChars(s: string, pat: string, rep: string)
    ensures forall i :: 0 <= i < |Replace(s, pat, rep)| ==>
      Replace(s, pat, rep)[i] in s || Replace(s, pat, rep)[i] in rep
    decreases |s|
  {
    var r := Replace(s, pat, rep);
    if pat == [] {
      if s != [] {
        ReplaceChars(s[1..], pat, rep);
        var t := Replace(s[1..], pat, rep);
        assert r == rep + [s[0]] + t;
        forall i | 0 <= i < |r| ensures r[i] in s || r[i] in rep {
          if i >= |rep| + 1 {
            assert r[i] == t[i - |rep| - 1];
            assert forall c :: c in s[1..] ==> c in s;
          }
        }
      }
    } else if |s| >= |pat| {
      if s[..|pat|] == pat {
        ReplaceChars(s[|pat|..], pat, rep);
        var t := Replace(s[|pat|..], pat, rep);
        assert r == rep + t;
        forall i | 0 <= i < |r| ensures r[i] in s || r[i] in rep {
          if i >= |rep| {
            assert r[i] == t[i - |rep|];
            assert forall c :: c in s[|pat|..] ==> c in s;
          }
        }
      } else {
        ReplaceChars(s[1..], pat, rep);
        var t := Replace(s[1..], pat, rep);
        assert r == [s[0]] + t;
        forall i | 0 <= i < |r| ensures r[i] in s || r[i] in rep {
          if i >= 1 {
            assert r[i] == t[i - 1];
            assert forall c :: c in s[1..] ==> c in s;
          }
        }
      }
    }
  }

  /** When pat and rep hold the same number of c's, replacing keeps the number of c's. */
  lemma {:induction false} ReplaceCount(s: string, pat: string, rep: string, c: char)
    requires pat != [] && Count(pat, c) == Count(rep, c)
    ensures Count(Replace(s, pat, rep), c) == Count(s, c)
    decreases |s|
  {
    if |s| >= |pat| {
      if s[..|pat|] == pat {
        ReplaceCount(s[|pat|..], pat, rep, c);
        CountConcat(rep, Replace(s[|pat|..], pat, rep), c);
        assert s == s[..|pat|] + s[|pat|..];
        CountConcat(s[..|pat|], s[|pat|..], c);
      } else {
        ReplaceCount(s[1..], pat, rep, c);
        CountConcat([s[0]], Replace(s[1..], pat, rep), c);
        assert ([s[0]] + Replace(s[1..], pat, rep))[1..] == Replace(s[1..], pat, rep);
      }
    }
  }

  /** Reference definition of replacing one character: each c becomes rep. */
  function ExpandChar(s: string, c: char, rep: string): string
  {
    if s == [] then [] else (if s[0] == c then rep else [s[0]]) + ExpandChar(s[1..], c, rep)
  }

  lemma {:induction false} ReplaceOneChar(s: string, c: char, rep: string)
    ensures Replace(s, [c], rep) == ExpandChar(s, c, rep)
  {
    if s != [] {
      ReplaceOneChar(s[1..], c, rep);
      assert s[..1] == [s[0]];
      assert s[1..] == s[|[c]|..];
    }
  }

  lemma {:induction false} ExpandCharRemoves(s: string, c: char, rep: string)
    requires c !in rep
    ensures c !in ExpandChar(s, c, rep)
  {
    if s != [] {
      ExpandCharRemoves(s[1..], c, rep);
    }
  }

  lemma {:induction false} ExpandCharAbsent(s: string, c: char, rep: string)
    requires c !in s
    ensures ExpandChar(s, c, rep) == s
  {
    if s != [] {
      ExpandCharAbsent(s[1..], c, rep);
      assert s == [s[0]] + s[1..];
    }
  }

  /** Python's str.isspace() for one character. */
  predicate IsSpace(c: char)
  {
    c == ' ' || ('\t' <= c <= '\r') || ('\U{1C}' <= c <= '\U{1F}') || c == '\U{85}' || c == '\U{A0}'
    || c == '\U{1680}' || ('\U{2000}' <= c <= '\U{200A}') || c == '\U{2028}' || c == '\U{2029}'
    || c == '\U{202F}' || c == '\U{205F}' || c == '\U{3000}'
  }

  function LeadingSpaces(s: string): (k: nat)
    ensures k <= |s|
    ensures forall i :: 0 <= i < k ==> IsSpace(s[i])
    ensures k < |s| ==> !IsSpace(s[k])
  {
    if s == [] || !IsSpace(s[0]) then 0 else 1 + LeadingSpaces(s[1..])
  }

  function TrailingSpaces(s: string): (k: nat)
    ensures k <= |s|
    ensures forall i :: |s| - k <= i < |s| ==> IsSpace(s[i])
    ensures k < |s| ==> !IsSpace(s[|s| - 1 - k])
  {
    if s == [] || !IsSpace(s[|s| - 1]) then 0 else 1 + TrailingSpaces(s[..|s| - 1])
  }

  /** Python's s.strip(): the slice of s left once the whitespace at both ends is removed. */
  function Strip(s: string): (r: string)
    ensures LeadingSpaces(s) + |r| <= |s|
    ensures r == s[LeadingSpaces(s)..LeadingSpaces(s) + |r|]
    ensures forall i :: 0 <= i < |s| && !(LeadingSpaces(s) <= i < LeadingSpaces(s) + |r|) ==> IsSpace(s[i])
    ensures r != [] ==> !IsSpace(r[0]) && !IsSpace(r[|r| - 1])
  {
    var t := s[LeadingSpaces(s)..];
    t[..|t| - TrailingSpaces(t)]
  }

  function DigitChar(d: nat): char
    requires d < 10
  {
    "0123456789"[d]
  }

  /** Python's str(n) for an int n >= 0. */
  function NatToDecimal(n: nat): (r: string)
    ensures r != [] && forall i :: 0 <= i < |r| ==> '0' <= r[i] <= '9'
  {
    if n < 10 then [DigitChar(n)] else NatToDecimal(n / 10) + [DigitChar(n % 10)]
  }

  /** Python's int(s) for a string of decimal digits. */
  function DecimalToNat(s: string): nat
    requires forall i :: 0 <= i < |s| ==> '0' <= s[i] <= '9'
  {
    if s == [] then 0 else 10 * DecimalToNat(s[..|s| - 1]) + (s[|s| - 1] as int - '0' as int)
  }

  /** int(str(n)) == n: a numeric id survives the round trip through its decimal text. */
  lemma {:induction false} DecimalRoundTrip(n: nat)
    ensures DecimalToNat(NatToDecimal(n)) == n
  {
    var r := NatToDecimal(n);
    if n >= 10 {
      DecimalRoundTrip(n / 10);
      assert r[..|r| - 1] == NatToDecimal(n / 10);
    }
  }

  /** So str() is injective on ids. */
  lemma DecimalInjective(m: nat, n: nat)
    requires NatToDecimal(m) == NatToDecimal(n)
    ensures m == n
  {
    DecimalRoundTrip(m);
    DecimalRoundTrip(n);
  }
}
