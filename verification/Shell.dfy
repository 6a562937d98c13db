/**
 Shell quoting against shell lexing (section 2.2 of the POSIX Shell Command
 Language; for fish, its single-quote rule).  The lexers refuse every character that
 would not stand for itself, so a command they accept is literal text.
 */
module Shell {
  import opened Text

  datatype Mode = Bare | Single | Double

  /** Characters that stand for themselves outside quotes, as arguments of a command. */
  predicate Plain(c: char) {
    || 'a' <= c <= 'z' || 'A' <= c <= 'Z' || '0' <= c <= '9'
    || c == '@' || c == '%' || c == '_' || c == '+' || c == '=' || c == ':' || c == ',' || c == '.' || c == '/'
    || c == '-'
  }

  function Chars(word: Option<string>): string {
    if word.Some? then word.value else ""
  }

  function Add(word: Option<string>, c: char): Option<string> {
    Some(Chars(word) + [c])
  }

  function Cons(word: Option<string>, rest: Option<seq<string>>): Option<seq<string>> {
    if rest.None? then None else if word.Some? then Some([word.value] + rest.value) else rest
  }

  /** The words of a POSIX command line, or nothing if it holds more than literal text. */
  function Lex(s: string, mode: Mode, word: Option<string>): Option<seq<string>> {
    if s == "" then (if mode.Bare? then Cons(word, Some([])) else None)
    else
      var c, rest := s[0], s[1..];
      match mode
      case Bare =>
        if c == ' ' || c == '\t' then Cons(word, Lex(rest, Bare, None))
        else if c == '\'' then Lex(rest, Single, Some(Chars(word)))
        else if c == '"' then Lex(rest, Double, Some(Chars(word)))
        else if c == '\\' then (if rest == "" || rest[0] == '\n' then None
            else Lex(rest[1..], Bare, Add(word, rest[0])))
        else if Plain(c) then Lex(rest, Bare, Add(word, c))
        else None
      case Single => if c == '\'' then Lex(rest, Bare, word) else Lex(rest, Single, Add(word, c))
      case Double =>
        if c == '"' then Lex(rest, Bare, word)
        else if c == '$' || c == '`' || c == '\\' then None
        else Lex(rest, Double, Add(word, c))
  }

  function Words(s: string): Option<seq<string>> {
    Lex(s, Bare, None)
  }

  /** `strings.ReplaceAll` for a one-character pattern. */
  function Replace(s: string, c: char, x: string): string {
    if s == "" then "" else (if s[0] == c then x else [s[0]]) + Replace(s[1..], c, x)
  }

  // ---- the quoters ----

  /** `isSimpleString`. */
  predicate Simple(s: string) {
    forall c :: c in s ==>
      'a' <= c <= 'z' || 'A' <= c <= 'Z' || '0' <= c <= '9' || c == '-' || c == '_' || c == '.' || c == '/'
  }

  function QuotePosix(s: string): string {
    if Simple(s) then s else "'" + Replace(s, '\'', "'\\''") + "'"
  }

  function QuoteFish(s: string): string {
    if Simple(s) then s else "'" + Replace(Replace(s, '\\', "\\\\"), '\'', "\\'") + "'"
  }

  function QuoteArg(s: string): string {
    if s == "" then "''"
    else if forall c :: c in s ==> Plain(c) then s
    else "'" + Replace(s, '\'', "'\"'\"'") + "'"
  }

  // ---- POSIX ----

  lemma {:induction false} LexPlain(s: string, tail: string, word: Option<string>)
    requires forall c :: c in s ==> Plain(c)
    ensures Lex(s + tail, Bare, word) == Lex(tail, Bare, if s == "" then word else Some(Chars(word) + s))
  {
    if s == "" {
      assert s + tail == tail;
    } else {
      assert s[0] in s && (s + tail)[0] == s[0] && (s + tail)[1..] == s[1..] + tail;
      assert Lex(s + tail, Bare, word) == Lex(s[1..] + tail, Bare, Add(word, s[0]));
      LexPlain(s[1..], tail, Add(word, s[0]));
      assert Chars(word) + [s[0]] + s[1..] == Chars(word) + s;
      assert s[1..] == "" ==> s == [s[0]];
    }
  }

  /** Inside single quotes, with each quote closed, escaped and opened again. */
  lemma {:induction false} LexPosixBody(s: string, tail: string, w: string)
    ensures Lex(Replace(s, '\'', "'\\''") + "'" + tail, Single, Some(w)) == Lex(tail, Bare, Some(w + s))
  {
    var all := Replace(s, '\'', "'\\''") + "'" + tail;
    if s == "" {
      assert all[1..] == tail && w + s == w;
    } else {
      var more := Replace(s[1..], '\'', "'\\''") + "'" + tail;
      LexPosixBody(s[1..], tail, w + [s[0]]);
      assert w + [s[0]] + s[1..] == w + s;
      if s[0] == '\'' {
        assert all[0] == '\'' && all[1] == '\\' && all[2] == '\'' && all[3] == '\'';
        assert all[1..][1..] == all[2..] && all[2..][1..] == all[3..] && all[3..][1..] == more;
        assert Lex(all, Single, Some(w)) == Lex(all[1..], Bare, Some(w)) == Lex(all[3..], Bare, Some(w + ['\'']));
        assert Lex(all[3..], Bare, Some(w + ['\''])) == Lex(more, Single, Some(w + ['\'']));
      } else {
        assert all[0] == s[0] && all[1..] == more;
      }
    }
  }

  /** A quoted argument adds exactly itself to the word being read; the empty argument adds nothing at all. */
  lemma LexPosix(s: string, tail: string, word: Option<string>)
    ensures Lex(QuotePosix(s) + tail, Bare, word) == Lex(tail, Bare, if s == "" then word else Some(Chars(word) + s))
  {
    if Simple(s) {
      LexPlain(s, tail, word);
    } else {
      var body := Replace(s, '\'', "'\\''") + "'" + tail;
      var all := QuotePosix(s) + tail;
      assert all[0] == '\'' && all[1..] == body;
      LexPosixBody(s, tail, Chars(word));
    }
  }

  // ---- the argument quoter of doctor ----

  lemma {:induction false} LexArgBody(s: string, tail: string, w: string)
    ensures Lex(Replace(s, '\'', "'\"'\"'") + "'" + tail, Single, Some(w)) == Lex(tail, Bare, Some(w + s))
  {
    var all := Replace(s, '\'', "'\"'\"'") + "'" + tail;
    if s == "" {
      assert all[1..] == tail && w + s == w;
    } else {
      var more := Replace(s[1..], '\'', "'\"'\"'") + "'" + tail;
      LexArgBody(s[1..], tail, w + [s[0]]);
      assert w + [s[0]] + s[1..] == w + s;
      if s[0] == '\'' {
        assert all[0] == '\'' && all[1] == '"' && all[2] == '\'' && all[3] == '"' && all[4] == '\'';
        assert all[1..][1..] == all[2..] && all[2..][1..] == all[3..] && all[3..][1..] == all[4..]
            && all[4..][1..] == more;
        assert Lex(all, Single, Some(w)) == Lex(all[1..], Bare, Some(w)) == Lex(all[2..], Double, Some(w));
        assert Lex(all[2..], Double, Some(w)) == Lex(all[3..], Double, Some(w + ['\'']))
            == Lex(all[4..], Bare, Some(w + ['\'']));
        assert Lex(all[4..], Bare, Some(w + ['\''])) == Lex(more, Single, Some(w + ['\'']));
      } else {
        assert all[0] == s[0] && all[1..] == more;
      }
    }
  }

  lemma LexOpenQuote(rest: string, word: Option<string>)
    ensures Lex("'" + rest, Bare, word) == Lex(rest, Single, Some(Chars(word)))
  {
    assert ("'" + rest)[1..] == rest;
  }

  lemma LexEmptyQuotes(tail: string, word: Option<string>)
    ensures Lex("''" + tail, Bare, word) == Lex(tail, Bare, Some(Chars(word)))
  {
    var all := "''" + tail;
    assert all[0] == '\'' && all[1] == '\'' && all[1..][0] == '\'' && all[1..][1..] == tail;
    assert Lex(all, Bare, word) == Lex(all[1..], Single, Some(Chars(word)));
  }

  /** Exact for every argument, the empty one included. */
  lemma LexArg(s: string, tail: string, word: Option<string>)
    ensures Lex(QuoteArg(s) + tail, Bare, word) == Lex(tail, Bare, Some(Chars(word) + s))
  {
    hide Lex, Replace;
    if s == "" {
      assert Chars(word) + s == Chars(word);
      LexEmptyQuotes(tail, word);
    } else {
      if forall c :: c in s ==> Plain(c) {
        LexPlain(s, tail, word);
      } else {
        LexArgBody(s, tail, Chars(word));
        var body := Replace(s, '\'', "'\"'\"'") + "'";
        assert QuoteArg(s) + tail == "'" + (body + tail);
        LexOpenQuote(body + tail, word);
      }
    }
  }

  // ---- fish ----

  /** One pass over the characters. */
  function FishEscape(s: string): string {
    if s == "" then ""
    else (if s[0] == '\\' then "\\\\" else if s[0] == '\'' then "\\'" else [s[0]]) + FishEscape(s[1..])
  }

  lemma ReplaceCons(d: char, b: string, c: char, x: string)
    ensures Replace([d] + b, c, x) == (if d == c then x else [d]) + Replace(b, c, x)
  {
    assert ([d] + b)[1..] == b;
  }

  /** The two replacement passes are the character-wise escape: the second never touches what the first wrote. */
  lemma {:induction false} TwoPassesAreOne(s: string)
    ensures Replace(Replace(s, '\\', "\\\\"), '\'', "\\'") == FishEscape(s)
  {
    if s == "" {
      return;
    }
    hide Replace;
    TwoPassesAreOne(s[1..]);
    var once := Replace(s[1..], '\\', "\\\\");
    assert s == [s[0]] + s[1..];
    ReplaceCons(s[0], s[1..], '\\', "\\\\");
    if s[0] == '\\' {
      assert "\\\\" + once == ['\\'] + (['\\'] + once);
      ReplaceCons('\\', ['\\'] + once, '\'', "\\'");
      ReplaceCons('\\', once, '\'', "\\'");
      assert ['\\'] + (['\\'] + FishEscape(s[1..])) == "\\\\" + FishEscape(s[1..]);
    } else {
      ReplaceCons(s[0], once, '\'', "\\'");
    }
  }

  /** The one word of a fish argument: plain, or one single-quoted string. */
  function FishWord(s: string): Option<string> {
    if s != "" && s[0] == '\'' then FishQuoted(s[1..], "")
    else if forall c :: c in s ==> Plain(c) then Some(s)
    else None
  }

  /** In fish single quotes a backslash escapes a backslash or a quote, and otherwise stands for itself. */
  function FishQuoted(s: string, w: string): Option<string> {
    if s == "" then None
    else if s[0] == '\'' then (if s[1..] == "" then Some(w) else None)
    else if s[0] == '\\' && |s| > 1 && (s[1] == '\\' || s[1] == '\'') then FishQuoted(s[2..], w + [s[1]])
    else FishQuoted(s[1..], w + [s[0]])
  }

  lemma {:induction false} FishBody(s: string, w: string)
    ensures FishQuoted(FishEscape(s) + "'", w) == Some(w + s)
  {
    var all := FishEscape(s) + "'";
    if s == "" {
      assert all[1..] == "" && w + s == w;
    } else {
      FishBody(s[1..], w + [s[0]]);
      assert w + [s[0]] + s[1..] == w + s;
      var more := FishEscape(s[1..]) + "'";
      if s[0] == '\\' || s[0] == '\'' {
        assert all[0] == '\\' && all[1] == s[0] && all[2..] == more;
      } else {
        assert all[0] == s[0] && all[1..] == more;
      }
    }
  }

  lemma FishRoundTrip(s: string)
    ensures FishWord(QuoteFish(s)) == Some(s)
  {
    hide Replace, FishQuoted, FishEscape;
    if !Simple(s) {
      TwoPassesAreOne(s);
      FishBody(s, "");
      assert QuoteFish(s)[0] == '\'' && QuoteFish(s)[1..] == FishEscape(s) + "'";
      assert "" + s == s;
    } else if s != "" {
      assert s[0] in s;
    }
  }

  // ---- whole commands ----

  /** `displayCommand`. */
  function Display(argv: seq<string>): string {
    if argv == [] then ""
    else if |argv| == 1 then QuotePosix(argv[0])
    else QuotePosix(argv[0]) + " " + Display(argv[1..])
  }

  function NonEmpty(argv: seq<string>): seq<string> {
    if argv == [] then [] else (if argv[0] == "" then [] else [argv[0]]) + NonEmpty(argv[1..])
  }

  lemma LexSpace(rest: string, word: Option<string>)
    ensures Lex(" " + rest, Bare, word) == Cons(word, Words(rest))
  {
    assert (" " + rest)[1..] == rest;
  }

  /** The first argument of a displayed command, and the rest. */
  lemma ReadsFirst(a: string, rest: string)
    ensures Words(QuotePosix(a) + " " + rest) == Cons(if a == "" then None else Some(a), Words(rest))
  {
    hide Lex, QuotePosix;
    var word := if a == "" then None else Some(a);
    assert Chars(None) + a == a;
    LexPosix(a, " " + rest, None);
    assert QuotePosix(a) + " " + rest == QuotePosix(a) + (" " + rest);
    LexSpace(rest, word);
  }

  /** A displayed command is read back as its arguments without the empty ones. */
  lemma {:induction false} DisplayReadsBack(argv: seq<string>)
    ensures Words(Display(argv)) == Some(NonEmpty(argv))
  {
    if argv == [] {
      return;
    }
    hide Lex, QuotePosix;
    if |argv| == 1 {
      PosixRoundTrip(argv[0]);
      assert argv[1..] == [];
      assert NonEmpty(argv) == if argv[0] == "" then [] else [argv[0]];
    } else {
      ReadsFirst(argv[0], Display(argv[1..]));
      DisplayReadsBack(argv[1..]);
      assert [] + NonEmpty(argv[1..]) == NonEmpty(argv[1..]);
    }
  }

  lemma {:induction false} NonEmptyShrinks(argv: seq<string>)
    ensures |NonEmpty(argv)| <= |argv| && (NonEmpty(argv) == argv <==> "" !in argv)
  {
    if argv != [] {
      NonEmptyShrinks(argv[1..]);
      assert argv == [argv[0]] + argv[1..];
      if argv[0] == "" { assert |NonEmpty(argv)| < |argv|; }
    }
  }

  /** Tokenising the display command gives the argument vector back exactly when no argument is empty. */
  lemma DisplayIsExact(argv: seq<string>)
    ensures Words(Display(argv)) == Some(argv) <==> "" !in argv
  {
    DisplayReadsBack(argv);
    NonEmptyShrinks(argv);
  }

  lemma LexNothing(word: Option<string>)
    ensures Lex("", Bare, word) == Some(if word.Some? then [word.value] else [])
  {
    assert word.Some? ==> [word.value] + [] == [word.value];
  }

  /** POSIX quoting then lexing is the identity, except that the empty string disappears. */
  lemma PosixRoundTrip(s: string)
    ensures Words(QuotePosix(s)) == Some(if s == "" then [] else [s])
  {
    LexNothing(if s == "" then None else Some(s));
    hide Lex, QuotePosix;
    LexPosix(s, "", None);
    assert QuotePosix(s) + "" == QuotePosix(s) && Chars(None) + s == s;
  }

  /** The argument quoter is exact on every string. */
  lemma ArgRoundTrip(s: string)
    ensures Words(QuoteArg(s)) == Some([s])
  {
    LexNothing(Some(s));
    hide Lex, QuoteArg;
    LexArg(s, "", None);
    assert QuoteArg(s) + "" == QuoteArg(s) && Chars(None) + s == s;
  }
}
