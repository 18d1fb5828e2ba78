/** A double-quote-and-space reader of a command line: the word splitting the converter's
    quoting relies on. A space outside quotes ends a word, a double quote toggles quoting
    and is itself dropped, and a quoted run starts a word even when it is empty. Every other
    character, `$`, backquote and backslash included, is read literally: the expansions a
    POSIX shell still performs inside double quotes are not part of this reader. */
module ShellWords {

  const Quote: char := '"'
  const Space: char := ' '

  /** A double-quoted run with no double quote inside. */
  function Quoted(s: string): string {
    [Quote] + s + [Quote]
  }

  predicate NoQuote(s: string) {
    Quote !in s
  }

  /** Characters that stand for themselves outside quotes. */
  predicate Plain(s: string) {
    Quote !in s && Space !in s
  }

  /** The words of the command line `s`. */
  function Words(s: string): seq<string> {
    Scan(s, false, false, "")
  }

  /** Reads `s` with a word in progress (`inWord`, text so far `cur`), inside quotes or not. */
  function Scan(s: string, inWord: bool, quoted: bool, cur: string): seq<string>
    decreases |s|
  {
    if |s| == 0 then (if inWord then [cur] else [])
    else if s[0] == Quote then Scan(s[1..], true, !quoted, cur)
    else if s[0] == Space && !quoted then
      (if inWord then [cur] + Scan(s[1..], false, false, "") else Scan(s[1..], false, false, ""))
    else Scan(s[1..], true, quoted, cur + [s[0]])
  }

  /** Plain characters outside quotes are appended to the current word. */
  lemma {:induction false} ScanPlain(x: string, rest: string, inWord: bool, cur: string)
    requires Plain(x)
    ensures Scan(x + rest, inWord, false, cur) == Scan(rest, inWord || |x| > 0, false, cur + x)
    decreases |x|
  {
    if |x| > 0 {
      assert x[0] in x;
      assert (x + rest)[1..] == x[1..] + rest;
      assert Plain(x[1..]) by {
        forall i | 0 <= i < |x[1..]| ensures x[1..][i] != Quote && x[1..][i] != Space {
          assert x[1..][i] == x[i + 1] && x[i + 1] in x;
        }
      }
      ScanPlain(x[1..], rest, true, cur + [x[0]]);
      assert cur + [x[0]] + x[1..] == cur + x;
    } else {
      assert x + rest == rest && cur + x == cur;
    }
  }

  /** Inside quotes every character except a quote is appended to the current word. */
  lemma {:induction false} ScanInsideQuotes(x: string, rest: string, cur: string)
    requires NoQuote(x)
    ensures Scan(x + rest, true, true, cur) == Scan(rest, true, true, cur + x)
    decreases |x|
  {
    if |x| > 0 {
      assert x[0] in x;
      assert (x + rest)[1..] == x[1..] + rest;
      assert NoQuote(x[1..]) by {
        forall i | 0 <= i < |x[1..]| ensures x[1..][i] != Quote {
          assert x[1..][i] == x[i + 1] && x[i + 1] in x;
        }
      }
      ScanInsideQuotes(x[1..], rest, cur + [x[0]]);
      assert cur + [x[0]] + x[1..] == cur + x;
    } else {
      assert x + rest == rest && cur + x == cur;
    }
  }

  /** A quoted run contributes its contents, without the quotes, to the current word. */
  lemma ScanQuoted(x: string, rest: string, inWord: bool, cur: string)
    requires NoQuote(x)
    ensures Scan(Quoted(x) + rest, inWord, false, cur) == Scan(rest, true, false, cur + x)
  {
    var s := Quoted(x) + rest;
    assert s[0] == Quote;
    assert s[1..] == x + ([Quote] + rest);
    ScanInsideQuotes(x, [Quote] + rest, cur);
    assert ([Quote] + rest)[1..] == rest;
  }

  /** A space outside quotes ends the word in progress. */
  lemma ScanSpace(rest: string, inWord: bool, cur: string)
    ensures Scan([Space] + rest, inWord, false, cur)
         == (if inWord then [cur] else []) + Scan(rest, false, false, "")
  {
    assert ([Space] + rest)[1..] == rest;
  }

  /** A quoted word followed by a space, read from the start of a word. */
  lemma QuotedWord(x: string, rest: string)
    requires NoQuote(x)
    ensures Scan(Quoted(x) + ([Space] + rest), false, false, "") == [x] + Scan(rest, false, false, "")
  {
    ScanQuoted(x, [Space] + rest, false, "");
    assert "" + x == x;
    ScanSpace(rest, true, x);
  }

  /** A non-empty plain word followed by a space, read from the start of a word. */
  lemma PlainWord(x: string, rest: string)
    requires Plain(x) && |x| > 0
    ensures Scan(x + ([Space] + rest), false, false, "") == [x] + Scan(rest, false, false, "")
  {
    ScanPlain(x, [Space] + rest, false, "");
    assert "" + x == x;
    ScanSpace(rest, true, x);
  }

  /** A quoted word at the end of the line. */
  lemma LastQuotedWord(x: string)
    requires NoQuote(x)
    ensures Scan(Quoted(x), false, false, "") == [x]
  {
    assert Quoted(x) == Quoted(x) + "";
    ScanQuoted(x, "", false, "");
    assert "" + x == x;
  }

  /** A space between words is skipped. */
  lemma SkipSpace(rest: string)
    ensures Scan([Space] + rest, false, false, "") == Scan(rest, false, false, "")
  {
    ScanSpace(rest, false, "");
  }
}
