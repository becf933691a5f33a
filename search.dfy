/** The full-text search sanitiser of the reader (parse_search): FTS5 gives meaning to
    punctuation, so every punctuation character is blanked except matched pairs of double
    quotes, which delimit phrases. */
module Search {
  import opened Strings

  /** Membership in Python's string.punctuation, the ASCII characters
      !"#$%&'()*+,-./ and :;<=>?@ and [\]^_` and {|}~ . */
  predicate IsPunctuation(c: char)
  {
    '!' <= c <= '/' || ':' <= c <= '@' || '[' <= c <= '`' || '{' <= c <= '~'
  }

  const Quote: char := '"'

  /** x.translate(escaper), the table sending every punctuation character to a space. */
  function Translate(s: string): (r: string)
    ensures |r| == |s|
  {
    seq(|s|, i requires 0 <= i < |s| => if IsPunctuation(s[i]) then ' ' else s[i])
  }

  function TranslateAll(parts: seq<string>): (r: seq<string>)
    ensures |r| == |parts|
  {
    seq(|parts|, i requires 0 <= i < |parts| => Translate(parts[i]))
  }

  /** parse_search: split on the quote, blank the punctuation of every piece, and glue the
      pieces back with quotes, except that an even number of pieces (an odd number of
      quotes) glues the last piece on without its quote; finally every "" becomes " ". */
  function ParseSearch(query: string): (r: string)
  {
    Replace(Glued(query), [Quote, Quote], [Quote, ' ', Quote])
  }

  /** The text parse_search builds before its final replacement. */
  function Glued(query: string): string
  {
    var comps := Split(query, Quote);
    var n := |comps|;
    if n % 2 == 1 then Join(TranslateAll(comps), [Quote])
    else Join(TranslateAll(comps[..n - 1]), [Quote]) + Translate(comps[n - 1])
  }

  // ----- A reference definition: blank character by character and drop the last quote -----

  function EscapeChar(c: char): char
  {
    if IsPunctuation(c) && c != Quote then ' ' else c
  }

  function Escape(s: string): (r: string)
    ensures |r| == |s|
  {
    seq(|s|, i requires 0 <= i < |s| => EscapeChar(s[i]))
  }

  /** s without its last occurrence of c. */
  function DropLast(s: string, c: char): string
  {
    if s == [] then []
    else if s[|s| - 1] == c then s[..|s| - 1]
    else DropLast(s[..|s| - 1], c) + [s[|s| - 1]]
  }

  /** What parse_search does before the final replacement: an odd number of quotes loses its
      last one, and every other punctuation character becomes a space. */
  function Sanitised(query: string): string
  {
    Escape(if Count(query, Quote) % 2 == 0 then query else DropLast(query, Quote))
  }

  lemma TranslateWithoutQuote(s: string)
    requires Quote !in s
    ensures Translate(s) == Escape(s)
  {
  }

  lemma EscapeConcat(a: string, b: string)
    ensures Escape(a + b) == Escape(a) + Escape(b)
  {
  }

  lemma {:induction false} TranslateJoin(parts: seq<string>)
    requires forall i :: 0 <= i < |parts| ==> Quote !in parts[i]
    ensures Join(TranslateAll(parts), [Quote]) == Escape(Join(parts, [Quote]))
  {
    if |parts| == 1 {
      TranslateWithoutQuote(parts[0]);
    } else if |parts| > 1 {
      var rest := parts[1..];
      TranslateJoin(rest);
      assert TranslateAll(parts)[1..] == TranslateAll(rest);
      TranslateWithoutQuote(parts[0]);
      EscapeConcat(parts[0] + [Quote], Join(rest, [Quote]));
      EscapeConcat(parts[0], [Quote]);
    }
  }

  lemma {:induction false} DropLastAppend(a: string, c: char, b: string)
    requires c !in b
    ensures DropLast(a + [c] + b, c) == a + b
    decreases |b|
  {
    var s := a + [c] + b;
    if b == [] {
      assert s[..|s| - 1] == a;
    } else {
      var b' := b[..|b| - 1];
      assert s[|s| - 1] == b[|b| - 1];
      assert s[..|s| - 1] == a + [c] + b';
      DropLastAppend(a, c, b');
      assert a + b == a + b' + [b[|b| - 1]];
    }
  }

  lemma GluedOdd(query: string)
    requires |Split(query, Quote)| % 2 == 1
    ensures Glued(query) == Escape(query)
  {
    SplitJoin(query, Quote);
    TranslateJoin(Split(query, Quote));
  }

  lemma GluedEven(query: string)
    requires |Split(query, Quote)| % 2 == 0
    ensures Glued(query) == Escape(DropLast(query, Quote))
  {
    var comps := Split(query, Quote);
    var n := |comps|;
    var init, last := comps[..n - 1], comps[n - 1];
    SplitJoin(query, Quote);
    assert comps == init + [last];
    TranslateJoin(init);
    JoinSnoc(init, last, [Quote]);
    var j := Join(init, [Quote]);
    assert query == j + [Quote] + last;
    DropLastAppend(j, Quote, last);
    TranslateWithoutQuote(last);
    EscapeConcat(j, last);
  }

  /** The reference definition agrees with parse_search. */
  lemma ParseSearchReference(query: string)
    ensures ParseSearch(query) == Replace(Sanitised(query), [Quote, Quote], [Quote, ' ', Quote])
  {
    GluedIsSanitised(query);
  }

  lemma GluedIsSanitised(query: string)
    ensures Glued(query) == Sanitised(query)
  {
    if |Split(query, Quote)| % 2 == 1 {
      GluedOdd(query);
    } else {
      GluedEven(query);
    }
  }

  lemma {:induction false} EscapeCount(s: string)
    ensures Count(Escape(s), Quote) == Count(s, Quote)
  {
    if s != [] {
      assert Escape(s)[1..] == Escape(s[1..]);
      EscapeCount(s[1..]);
    }
  }

  lemma {:induction false} DropLastCount(s: string, c: char)
    requires Count(s, c) > 0
    ensures Count(DropLast(s, c), c) == Count(s, c) - 1
    decreases |s|
  {
    var init, last := s[..|s| - 1], s[|s| - 1];
    assert s == init + [last];
    CountConcat(init, [last], c);
    if last != c {
      DropLastCount(init, c);
      CountConcat(DropLast(init, c), [last], c);
    }
  }

  /** The final replacement keeps the quotes of the sanitised text. */
  lemma ParseSearchKeepsQuotes(query: string)
    ensures Count(ParseSearch(query), Quote) == Count(Sanitised(query), Quote)
  {
    ParseSearchReference(query);
    SpacingKeepsQuotes(Sanitised(query));
  }

  /** The quotes of the query survive, except that an odd one out is dropped ... */
  lemma ParseSearchQuotes(query: string)
    ensures Count(ParseSearch(query), Quote) == Count(query, Quote) - Count(query, Quote) % 2
  {
    ParseSearchKeepsQuotes(query);
    SanitisedQuotes(query);
  }

  /** ... so the output always holds an even number of quotes. */
  lemma ParseSearchEvenQuotes(query: string)
    ensures Count(ParseSearch(query), Quote) % 2 == 0
  {
    var a := Count(ParseSearch(query), Quote);
    var k := Count(query, Quote);
    ParseSearchQuotes(query);
    assert a == k - k % 2;
    EvenPart(k);
    assert (k - k % 2) % 2 == 0;
  }

  lemma EvenPart(k: nat)
    ensures (k - k % 2) % 2 == 0
  {
    assert k - k % 2 == 2 * (k / 2);
  }

  /** Separating adjacent quotes neither adds nor removes a quote. */
  lemma SpacingKeepsQuotes(s: string)
    ensures Count(Replace(s, [Quote, Quote], [Quote, ' ', Quote]), Quote) == Count(s, Quote)
  {
    PairCounts();
    ReplaceCount(s, [Quote, Quote], [Quote, ' ', Quote], Quote);
  }

  lemma SanitisedQuotes(query: string)
    ensures Count(Sanitised(query), Quote) == Count(query, Quote) - Count(query, Quote) % 2
  {
    var k := Count(query, Quote);
    if k % 2 == 1 {
      DropLastCount(query, Quote);
      EscapeCount(DropLast(query, Quote));
    } else {
      EscapeCount(query);
    }
  }

  lemma PairCounts()
    ensures Count([Quote, Quote], Quote) == 2 == Count([Quote, ' ', Quote], Quote)
  {
    var e: string := [];
    assert Count(e, Quote) == 0;
    assert Count([Quote], Quote) == 1 by {
      assert [Quote][1..] == e;
    }
    assert Count([' ', Quote], Quote) == 1 by {
      assert [' ', Quote][1..] == [Quote];
    }
    assert [Quote, Quote][1..] == [Quote];
    assert [Quote, ' ', Quote][1..] == [' ', Quote];
  }

  /** No punctuation other than the quote is left; in particular no single quote, so the
      result cannot close the SQL string literal it is pasted into. */
  lemma ParseSearchPunctuation(query: string)
    ensures forall i :: 0 <= i < |ParseSearch(query)| && IsPunctuation(ParseSearch(query)[i]) ==>
      ParseSearch(query)[i] == Quote
    ensures '\'' !in ParseSearch(query)
  {
    ParseSearchReference(query);
    ReplaceChars(Sanitised(query), [Quote, Quote], [Quote, ' ', Quote]);
  }

  lemma {:induction false} NoQuoteNoPair(s: string)
    requires Quote !in s
    ensures !Occurs(s, [Quote, Quote])
    decreases |s|
  {
    if |s| >= 2 {
      assert s[..2][0] == s[0];
      NoQuoteNoPair(s[1..]);
    }
  }

  /** A query without punctuation comes back unchanged. */
  lemma ParseSearchPlain(query: string)
    requires forall i :: 0 <= i < |query| ==> !IsPunctuation(query[i])
    ensures ParseSearch(query) == query
  {
    ParseSearchReference(query);
    assert Quote !in query;
    CountZero(query, Quote);
    assert Escape(query) == query;
    NoQuoteNoPair(query);
    ReplaceAbsent(query, [Quote, Quote], [Quote, ' ', Quote]);
  }
}
