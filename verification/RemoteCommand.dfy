/** The remote capture command (internal/capture/ssh_tcpdump.go) and how a POSIX shell splits it. */
module RemoteCommand {
  import opened Common

  // ---- printing ----

  predicate SafeChar(c: char) {
    'A' <= c <= 'Z' || 'a' <= c <= 'z' || '0' <= c <= '9' || c in "_@%+=:,./-"
  }

  predicate ShSafe(s: string) { forall i :: 0 <= i < |s| ==> SafeChar(s[i]) }

  /** Every single quote replaced by: close the quote, an escaped quote, open it again. */
  function Escaped(s: string): string {
    if s == "" then ""
    else if s[0] == '\'' then "'\\''" + Escaped(s[1..])
    else [s[0]] + Escaped(s[1..])
  }

  function ShQuote(s: string): (q: string)
    ensures q != ""
    ensures ShSafe(q) ==> q == s
  {
    if s == "" then
      QuoteIsUnsafe("''");
      "''"
    else if ShSafe(s) then s
    else
      var q := "'" + Escaped(s) + "'";
      QuoteIsUnsafe(q);
      q
  }

  lemma QuoteIsUnsafe(q: string)
    requires q != "" && q[0] == '\''
    ensures !ShSafe(q)
  {
    assert !SafeChar(q[0]);
  }

  function Itoa(n: int): (s: string)
    ensures s != "" && ShSafe(s)
    decreases if n < 0 then 1 - n else n
  {
    if n < 0 then "-" + Itoa(-n)
    else if n < 10 then [Digit(n)]
    else Itoa(n / 10) + [Digit(n % 10)]
  }

  function Digit(d: nat): (c: char)
    requires d < 10
    ensures '0' <= c <= '9'
  {
    '0' + d as char
  }

  /** The maximal runs of characters that are no space; space is the language's notion of white space. */
  function Fields(s: string, space: char -> bool): seq<string>
    decreases |s|
  {
    if s == "" then []
    else if space(s[0]) then Fields(s[1..], space)
    else
      var n := Run(s, space);
      [s[..n]] + Fields(s[n..], space)
  }

  function Run(s: string, space: char -> bool): (n: nat)
    ensures n <= |s| && (s != "" && !space(s[0]) ==> n > 0)
  {
    if s == "" || space(s[0]) then 0 else 1 + Run(s[1..], space)
  }

  function Join(parts: seq<string>): string {
    if parts == [] then ""
    else if |parts| == 1 then parts[0]
    else parts[0] + " " + Join(parts[1..])
  }

  function QuoteAll(args: seq<string>): (r: seq<string>)
    ensures |r| == |args|
  {
    seq(|args|, i requires 0 <= i < |args| => ShQuote(args[i]))
  }

  /** What tcpdump is to be started with. */
  function Arguments(bin: string, iface: string, filter: string, snaplen: int, space: char -> bool): seq<string> {
    [bin, "-U", "-w", "-", "-i", iface, "-s", Itoa(snaplen)] + Fields(filter, space)
  }

  method RemoteTcpdumpCommand(bin: string, iface: string, filter: string, snaplen: int, space: char -> bool)
    returns (cmd: string)
    ensures cmd == Join(QuoteAll(Arguments(bin, iface, filter, snaplen, space)))
    ensures Tokens(cmd) == Some(Arguments(bin, iface, filter, snaplen, space))
  {
    hide Fields, Itoa;
    var parts := [ShQuote(bin), "-U", "-w", "-", "-i", ShQuote(iface), "-s", Itoa(snaplen)];
    var toks := Fields(filter, space);
    ghost var head := [bin, "-U", "-w", "-", "-i", iface, "-s", Itoa(snaplen)];
    assert parts == QuoteAll(head);
    for i := 0 to |toks|
      invariant parts == QuoteAll(head + toks[..i])
    {
      parts := parts + [ShQuote(toks[i])];
      assert head + toks[..i + 1] == head + toks[..i] + [toks[i]];
    }
    assert head + toks[..|toks|] == Arguments(bin, iface, filter, snaplen, space);
    cmd := Join(parts);
    SplitInvertsPrint(Arguments(bin, iface, filter, snaplen, space));
  }

  // ---- the shell ----

  /** A token being read, without its quotes. */
  datatype Mode = Between | Bare(word: string) | Quoted(word: string)

  /** Unquoted, these end a token, expand, or mean something else than themselves (IEEE Std 1003.1-2017, Shell
      Command Language, section 2.2), apart from quotes and blanks. */
  predicate Special(c: char) { c in "|&;<>()$`\"\n*?[#~" }

  predicate Blank(c: char) { c == ' ' || c == '\t' }

  function Word(mode: Mode): string { if mode.Between? then "" else mode.word }

  /** Token recognition (section 2.3) with single quotes and backslashes (sections 2.2.1 and 2.2.2) removed as they
      are read. None: the text is no list of plain words. */
  function Lex(s: string, mode: Mode): Option<seq<string>>
    decreases |s|
  {
    if s == "" then
      match mode
      case Between => Some([])
      case Bare(w) => Some([w])
      case Quoted(_) => None
    else if mode.Quoted? then
      if s[0] == '\'' then Lex(s[1..], Bare(mode.word)) else Lex(s[1..], Quoted(mode.word + [s[0]]))
    else if s[0] == '\'' then Lex(s[1..], Quoted(Word(mode)))
    else if s[0] == '\\' then
      if |s| < 2 then None
      else if s[1] == '\n' then Lex(s[2..], mode)
      else Lex(s[2..], Bare(Word(mode) + [s[1]]))
    else if Blank(s[0]) then
      var rest := Lex(s[1..], Between);
      if mode.Between? || rest.None? then rest else Some([mode.word] + rest.value)
    else if Special(s[0]) then None
    else Lex(s[1..], Bare(Word(mode) + [s[0]]))
  }

  function Tokens(cmd: string): Option<seq<string>> { Lex(cmd, Between) }

  // ---- splitting inverts printing ----

  lemma SafeIsPlain(c: char)
    requires SafeChar(c)
    ensures !Special(c) && !Blank(c) && c != '\'' && c != '\\'
  {}

  lemma EscapedStep(s: string)
    ensures s == "" ==> Escaped(s) == ""
    ensures s != "" ==> Escaped(s) == (if s[0] == '\'' then "'\\''" else [s[0]]) + Escaped(s[1..])
  {}

  lemma StepSafe(c: char, rest: string, mode: Mode)
    requires SafeChar(c) && !mode.Quoted?
    ensures Lex([c] + rest, mode) == Lex(rest, Bare(Word(mode) + [c]))
  {
    SafeIsPlain(c);
    hide Special, Blank, SafeChar;
    assert ([c] + rest)[1..] == rest;
  }

  lemma StepOpen(rest: string, mode: Mode)
    requires !mode.Quoted?
    ensures Lex("'" + rest, mode) == Lex(rest, Quoted(Word(mode)))
  {
    assert ("'" + rest)[1..] == rest;
  }

  lemma StepInside(c: char, rest: string, word: string)
    ensures Lex([c] + rest, Quoted(word)) == Lex(rest, if c == '\'' then Bare(word) else Quoted(word + [c]))
  {
    assert ([c] + rest)[1..] == rest;
  }

  lemma StepEscape(c: char, rest: string, word: string)
    requires c != '\n'
    ensures Lex(['\\', c] + rest, Bare(word)) == Lex(rest, Bare(word + [c]))
  {
    assert (['\\', c] + rest)[2..] == rest;
  }

  lemma StepBlank(rest: string, word: string)
    ensures Lex(" " + rest, Bare(word)) ==
            if Lex(rest, Between).None? then None else Some([word] + Lex(rest, Between).value)
  {
    assert (" " + rest)[1..] == rest;
  }

  lemma {:induction false} LexSafe(s: string, rest: string, mode: Mode)
    requires ShSafe(s) && !mode.Quoted? && (s != "" || mode.Bare?)
    ensures Lex(s + rest, mode) == Lex(rest, Bare(Word(mode) + s))
    decreases |s|
  {
    hide Lex, SafeChar;
    if s == "" {
      assert s + rest == rest && Word(mode) + s == Word(mode);
    } else {
      StepSafe(s[0], s[1..] + rest, mode);
      LexSafe(s[1..], rest, Bare(Word(mode) + [s[0]]));
      assert [s[0]] + (s[1..] + rest) == s + rest;
      assert Word(mode) + [s[0]] + s[1..] == Word(mode) + s;
    }
  }

  lemma {:induction false} LexEscaped(s: string, rest: string, word: string)
    ensures Lex(Escaped(s) + "'" + rest, Quoted(word)) == Lex(rest, Bare(word + s))
    decreases |s|
  {
    hide Lex, Escaped;
    EscapedStep(s);
    if s == "" {
      StepInside('\'', rest, word);
      assert Escaped(s) + "'" + rest == ['\''] + rest;
      assert word + s == word;
    } else {
      var text := Escaped(s[1..]) + "'" + rest;
      LexEscaped(s[1..], rest, word + [s[0]]);
      assert word + [s[0]] + s[1..] == word + s;
      if s[0] == '\'' {
        StepInside('\'', "\\''" + text, word);
        StepEscape('\'', "'" + text, word);
        StepOpen(text, Bare(word + "'"));
        assert ['\''] + ("\\''" + text) == Escaped(s) + "'" + rest;
        assert ['\\', '\''] + ("'" + text) == "\\''" + text;
      } else {
        StepInside(s[0], text, word);
        assert [s[0]] + text == Escaped(s) + "'" + rest;
      }
    }
  }

  /** A quoted argument is read as one token holding the argument. */
  lemma LexQuote(s: string, rest: string)
    ensures Lex(ShQuote(s) + rest, Between) == Lex(rest, Bare(s))
  {
    hide Lex, Escaped;
    assert "" + s == s;
    if s != "" && ShSafe(s) {
      LexSafe(s, rest, Between);
    } else {
      LexEscaped(s, rest, "");
      StepOpen(Escaped(s) + "'" + rest, Between);
      EscapedStep(s);
      assert "'" + (Escaped(s) + "'" + rest) == ShQuote(s) + rest;
    }
  }

  /** For every argument list, empty strings and embedded quotes included: a shell splits the printed line into
      exactly those arguments, and meets no unquoted special character. */
  lemma {:induction false} SplitInvertsPrint(args: seq<string>)
    ensures Tokens(Join(QuoteAll(args))) == Some(args)
  {
    hide Lex, ShQuote;
    if args == [] {
      LexNothing("", "");
    } else {
      var rest := args[1..];
      SplitInvertsPrint(rest);
      assert QuoteAll(args)[1..] == QuoteAll(rest);
      assert args == [args[0]] + rest;
      if rest == [] {
        var none: string := "";
        LexQuote(args[0], none);
        assert Join(QuoteAll(args)) == QuoteAll(args)[0] == ShQuote(args[0]);
        assert ShQuote(args[0]) + none == ShQuote(args[0]);
        LexNothing(none, args[0]);
        assert [args[0]] == args;
        assert Join(QuoteAll(args)) == ShQuote(args[0]);
      } else {
        var more := Join(QuoteAll(rest));
        LexQuote(args[0], " " + more);
        StepBlank(more, args[0]);
        assert Join(QuoteAll(args)) == ShQuote(args[0]) + (" " + more);
      }
    }
  }

  lemma LexNothing(s: string, word: string)
    requires s == ""
    ensures Lex(s, Between) == Some([]) && Lex(s, Bare(word)) == Some([word])
  {}

  /** Different command lines are printed differently. */
  lemma PrintInjective(args: seq<string>, args': seq<string>)
    requires Join(QuoteAll(args)) == Join(QuoteAll(args'))
    ensures args == args'
  {
    SplitInvertsPrint(args);
    SplitInvertsPrint(args');
  }

  // ---- what is printed ----

  /** The characters that are always literal. */
  predicate Literal(c: char) {
    || c in {'A', 'B', 'C', 'D', 'E', 'F', 'G', 'H', 'I', 'J', 'K', 'L', 'M'}
    || c in {'N', 'O', 'P', 'Q', 'R', 'S', 'T', 'U', 'V', 'W', 'X', 'Y', 'Z'}
    || c in {'a', 'b', 'c', 'd', 'e', 'f', 'g', 'h', 'i', 'j', 'k', 'l', 'm'}
    || c in {'n', 'o', 'p', 'q', 'r', 's', 't', 'u', 'v', 'w', 'x', 'y', 'z'}
    || c in {'0', '1', '2', '3', '4', '5', '6', '7', '8', '9'}
    || c in {'_', '@', '%', '+', '=', ':', ',', '.', '/', '-'}
  }

  lemma SafeIsLiteral(c: char)
    ensures SafeChar(c) <==> Literal(c)
  {
    var n := c as int;
    assert c == n as char;
    assert 65 <= n < 78 ==> c in {'A', 'B', 'C', 'D', 'E', 'F', 'G', 'H', 'I', 'J', 'K', 'L', 'M'};
    assert 78 <= n < 91 ==> c in {'N', 'O', 'P', 'Q', 'R', 'S', 'T', 'U', 'V', 'W', 'X', 'Y', 'Z'};
    assert 97 <= n < 110 ==> c in {'a', 'b', 'c', 'd', 'e', 'f', 'g', 'h', 'i', 'j', 'k', 'l', 'm'};
    assert 110 <= n < 123 ==> c in {'n', 'o', 'p', 'q', 'r', 's', 't', 'u', 'v', 'w', 'x', 'y', 'z'};
    assert 48 <= n < 58 ==> c in {'0', '1', '2', '3', '4', '5', '6', '7', '8', '9'};
  }

  /** An argument is printed bare exactly when it is not empty and all its characters are literal. */
  lemma BareIff(s: string)
    ensures ShQuote(s) == s <==> s != "" && forall i :: 0 <= i < |s| ==> Literal(s[i])
    ensures ShQuote(s) != s ==> |ShQuote(s)| >= |s| + 2 && ShQuote(s)[0] == '\'' && ShQuote(s)[|ShQuote(s)| - 1] == '\''
  {
    hide SafeChar, Literal;
    forall c: char ensures SafeChar(c) <==> Literal(c) {
      SafeIsLiteral(c);
    }
    EscapedLength(s);
    if s != "" && !ShSafe(s) {
      assert |"'" + Escaped(s) + "'"| > |s|;
    }
  }

  lemma {:induction false} EscapedLength(s: string)
    ensures |Escaped(s)| >= |s|
  {
    if s != "" {
      EscapedLength(s[1..]);
    }
  }

  predicate IsDigit(c: char) { '0' <= c <= '9' }

  /** The number that a string of digits stands for. */
  function Decimal(s: string): int {
    if s == "" then 0 else 10 * Decimal(s[..|s| - 1]) + (s[|s| - 1] as int - '0' as int)
  }

  /** A number is printed in decimal digits without leading zeros, after a minus sign if it is negative. */
  lemma {:induction false} ItoaReads(n: int)
    ensures n >= 0 ==>
              var s := Itoa(n);
              Decimal(s) == n && (forall i :: 0 <= i < |s| ==> IsDigit(s[i])) && (s[0] == '0' ==> s == "0")
    ensures n < 0 ==> Itoa(n) == "-" + Itoa(-n)
    decreases if n < 0 then -n else n
  {
    if n >= 10 {
      var init, last := Itoa(n / 10), Digit(n % 10);
      ItoaReads(n / 10);
      assert Itoa(n) == init + [last];
      assert (init + [last])[..|init|] == init;
      assert "0"[..0] == "" && Decimal("0") == 0;
    } else if n >= 0 {
      assert Itoa(n)[..0] == "";
    }
  }

  ghost predicate AllSpace(s: string, space: char -> bool) { forall i :: 0 <= i < |s| ==> space(s[i]) }

  ghost predicate NoSpace(s: string, space: char -> bool) { forall i :: 0 <= i < |s| ==> !space(s[i]) }

  /** A gap, then a word and a gap in turn. */
  function Woven(gaps: seq<string>, words: seq<string>): string
    requires |gaps| == |words| + 1
  {
    if words == [] then gaps[0] else gaps[0] + (words[0] + Woven(gaps[1..], words[1..]))
  }

  /** The text is the words with gaps of spaces around them; two words are kept apart. */
  ghost predicate Weaves(s: string, gaps: seq<string>, words: seq<string>, space: char -> bool) {
    && |gaps| == |words| + 1 && s == Woven(gaps, words)
    && (forall i :: 0 <= i < |gaps| ==> AllSpace(gaps[i], space))
    && (forall i :: 0 < i < |words| ==> gaps[i] != "")
    && (forall i :: 0 <= i < |words| ==> words[i] != "" && NoSpace(words[i], space))
  }

  lemma {:induction false} RunIs(s: string, space: char -> bool)
    ensures NoSpace(s[..Run(s, space)], space) && (Run(s, space) < |s| ==> space(s[Run(s, space)]))
  {
    if s != "" && !space(s[0]) {
      RunIs(s[1..], space);
      assert s[..Run(s, space)] == [s[0]] + s[1..][..Run(s[1..], space)];
    }
  }

  lemma {:induction false} RunOf(w: string, rest: string, space: char -> bool)
    requires NoSpace(w, space) && (rest != "" ==> space(rest[0]))
    ensures Run(w + rest, space) == |w|
  {
    if w == "" {
      assert w + rest == rest;
    } else {
      RunOf(w[1..], rest, space);
      assert (w + rest)[1..] == w[1..] + rest;
    }
  }

  /** The fields of a text, with gaps of spaces around them, make up the text. */
  lemma {:induction false} FieldsWeave(s: string, space: char -> bool) returns (gaps: seq<string>)
    ensures |gaps| == |Fields(s, space)| + 1 && Weaves(s, gaps, Fields(s, space), space)
    ensures s != "" && space(s[0]) ==> gaps[0] != ""
    decreases |s|
  {
    hide Weaves, Woven, NoSpace;
    if s == "" {
      gaps := [""];
      NothingWoven(space);
    } else if space(s[0]) {
      var rest := FieldsWeave(s[1..], space);
      gaps := [[s[0]] + rest[0]] + rest[1..];
      GapGrown(s[0], s[1..], rest, Fields(s, space), space);
      assert s == [s[0]] + s[1..];
    } else {
      var n := Run(s, space);
      RunIs(s, space);
      var rest := FieldsWeave(s[n..], space);
      gaps := [""] + rest;
      WordAdded(s[..n], s[n..], rest, Fields(s[n..], space), space);
      assert s == s[..n] + s[n..];
    }
  }

  lemma NothingWoven(space: char -> bool)
    ensures Weaves("", [""], [], space)
  {}

  lemma GapGrown(c: char, s: string, gaps: seq<string>, words: seq<string>, space: char -> bool)
    requires space(c) && Weaves(s, gaps, words, space)
    ensures Weaves([c] + s, [[c] + gaps[0]] + gaps[1..], words, space)
  {
    var grown := [[c] + gaps[0]] + gaps[1..];
    if words != [] {
      assert grown[1..] == gaps[1..];
      assert [c] + (gaps[0] + (words[0] + Woven(gaps[1..], words[1..]))) == Woven(grown, words);
    }
  }

  lemma WordAdded(w: string, s: string, gaps: seq<string>, words: seq<string>, space: char -> bool)
    requires w != "" && NoSpace(w, space) && Weaves(s, gaps, words, space) && (words != [] ==> gaps[0] != "")
    ensures Weaves(w + s, [""] + gaps, [w] + words, space)
  {
    assert ([""] + gaps)[1..] == gaps && ([w] + words)[1..] == words;
    assert "" + (w + s) == w + s;
  }

  /** And they are the only words that do: a filter is cut at its spaces, and nowhere else. */
  lemma {:induction false} FieldsUnique(s: string, gaps: seq<string>, words: seq<string>, space: char -> bool)
    requires Weaves(s, gaps, words, space)
    ensures words == Fields(s, space)
    decreases |s|
  {
    var gap := gaps[0];
    if gap != "" {
      var less := [gap[1..]] + gaps[1..];
      GapShrunk(s, gaps, words, space);
      FieldsUnique(s[1..], less, words, space);
    } else if words != [] {
      var w, rest := words[0], Woven(gaps[1..], words[1..]);
      assert s == w + rest && w[0] == s[0];
      RestIsGap(s, gaps, words, space);
      RunOf(w, rest, space);
      assert s[|w|..] == rest;
      FieldsUnique(rest, gaps[1..], words[1..], space);
    }
  }

  lemma GapShrunk(s: string, gaps: seq<string>, words: seq<string>, space: char -> bool)
    requires Weaves(s, gaps, words, space) && gaps[0] != ""
    ensures s != "" && space(s[0])
    ensures var less := [gaps[0][1..]] + gaps[1..];
            Woven(less, words) == s[1..]
  {
    var less := [gaps[0][1..]] + gaps[1..];
    assert less[1..] == gaps[1..];
  }

  lemma RestIsGap(s: string, gaps: seq<string>, words: seq<string>, space: char -> bool)
    requires Weaves(s, gaps, words, space) && words != []
    ensures var rest := Woven(gaps[1..], words[1..]);
            (rest != "" ==> space(rest[0])) && Weaves(rest, gaps[1..], words[1..], space)
  {
    assert gaps[1..][0] == gaps[1] && AllSpace(gaps[1], space);
  }
}
