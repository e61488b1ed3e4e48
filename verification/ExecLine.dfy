/**
 Scoped launch arguments inside a Desktop Entry Exec value (application_package.py):
 locating raw token ends, quoting literal arguments, and inserting them.
 */
module ExecLine {
  import opened Common

  /** The white space of Python's `str.isspace`: 29 code points of the Basic Multilingual Plane. */
  const WHITE_SPACE: set<int> :=
    {9, 10, 11, 12, 13, 28, 29, 30, 31, 32, 133, 160, 5760, 8192, 8193, 8194, 8195, 8196, 8197, 8198, 8199, 8200,
     8201, 8202, 8232, 8233, 8239, 8287, 12288}

  /** Python's `str.isspace` on one character. */
  predicate IsSpace(c: char): (space: bool)
    ensures space <==> c as int in WHITE_SPACE
  {
    var u := c as int;
    || 0x09 <= u <= 0x0d || 0x1c <= u <= 0x20 || u == 0x85 || u == 0xa0 || u == 0x1680
    || 0x2000 <= u <= 0x200a || u == 0x2028 || u == 0x2029 || u == 0x202f || u == 0x205f || u == 0x3000
  }

  // ---- the tokenizer's meaning --------------------------------------------

  /** The scanner between two characters, with the raw words it has delimited so far. */
  datatype Scan = Scan(quote: Option<char>, escaped: bool, active: bool, words: seq<string>, word: string)

  const START := Scan(None, false, false, [], "")

  /** Whether this character is an unquoted separator. */
  predicate Separates(s: Scan, c: char) {
    !s.escaped && s.quote.None? && c != '\\' && c != '"' && c != '\'' && IsSpace(c)
  }

  function Step(s: Scan, c: char): Scan {
    if Separates(s, c) then
      if s.active then s.(active := false, words := s.words + [s.word], word := "") else s
    else
      var kept := s.(active := true, word := s.word + [c]);
      if s.escaped then s.(escaped := false, word := s.word + [c])
      else if c == '\\' && s.quote != Some('\'') then kept.(escaped := true)
      else if s.quote.Some? then s.(quote := if s.quote == Some(c) then None else s.quote, word := s.word + [c])
      else if c == '"' || c == '\'' then kept.(quote := Some(c))
      else kept
  }

  function Feed(s: Scan, text: string): Scan {
    if text == "" then s else Step(Feed(s, text[..|text| - 1]), text[|text| - 1])
  }

  predicate Complete(s: Scan) {
    s.quote.None? && !s.escaped
  }

  /** The raw tokens of a command; `None` when a quotation or an escape is left open. */
  function Tokens(command: string): Option<seq<string>> {
    var s := Feed(START, command);
    if !Complete(s) then None
    else Some(s.words + if s.active then [s.word] else [])
  }

  /** The offsets in `text` at which a token ends before a separator, scanning from `s`. */
  function CutsFrom(s: Scan, text: string): seq<nat> {
    if text == "" then []
    else
      var n := |text| - 1;
      var t := Feed(s, text[..n]);
      CutsFrom(s, text[..n]) + if Separates(t, text[n]) && t.active then [n] else []
  }

  function Cuts(text: string): seq<nat> {
    CutsFrom(START, text)
  }

  function Ends(command: string): Option<seq<nat>> {
    var s := Feed(START, command);
    if !Complete(s) then None
    else Some(Cuts(command) + if s.active then [|command|] else [])
  }

  /** `token_ends`. */
  method TokenEnds(command: string) returns (result: Option<seq<nat>>)
    ensures result == Ends(command)
    ensures result.Some? <==> Tokens(command).Some?
    ensures result.Some? ==> |result.value| == |Tokens(command).value|
  {
    var quote: Option<char> := None;
    var escaped, active := false, false;
    var ends: seq<nat> := [];
    for index := 0 to |command|
      invariant var s := Feed(START, command[..index]);
                quote == s.quote && escaped == s.escaped && active == s.active && |ends| == |s.words|
      invariant ends == Cuts(command[..index])
    {
      var c := command[index];
      assert command[..index + 1][..index] == command[..index];
      if escaped {
        escaped := false;
      } else if c == '\\' && quote != Some('\'') {
        escaped := true;
        active := true;
      } else if quote.Some? {
        if quote == Some(c) {
          quote := None;
        }
      } else if c == '"' || c == '\'' {
        quote, active := Some(c), true;
      } else if IsSpace(c) {
        if active {
          ends := ends + [index];
          active := false;
        }
      } else {
        active := true;
      }
    }
    assert command[..|command|] == command;
    CutCount(command);
    if quote.Some? || escaped {
      return None;
    }
    if active {
      ends := ends + [|command|];
    }
    assert ends == Cuts(command) + if active then [|command|] else [];
    result := Some(ends);
  }

  // ---- quoting --------------------------------------------------------------

  predicate Reserved(c: char) {
    c == '\\' || c == '"' || c == '`' || c == '$'
  }

  /** Python's `str.replace` of one character. */
  function Replace(s: string, c: char, into: string): string {
    if s == "" then "" else (if s[0] == c then into else [s[0]]) + Replace(s[1..], c, into)
  }

  /** One backslash before every reserved character, in a single pass. */
  function Escape(s: string): string {
    if s == "" then "" else (if Reserved(s[0]) then ['\\', s[0]] else [s[0]]) + Escape(s[1..])
  }

  function Doubled(s: string): string {
    Replace(s, '%', "%%")
  }

  function Quoted(value: string): string {
    "\"" + Escape(Doubled(value)) + "\""
  }

  lemma {:induction false} ReplaceAppend(a: string, b: string, c: char, into: string)
    ensures Replace(a + b, c, into) == Replace(a, c, into) + Replace(b, c, into)
  {
    if a == "" {
      assert a + b == b;
    } else {
      assert (a + b)[1..] == a[1..] + b;
      ReplaceAppend(a[1..], b, c, into);
    }
  }

  function Slashed(s: string, c: char): string {
    Replace(s, c, ['\\', c])
  }

  function Chained(s: string): string {
    Slashed(Slashed(Slashed(Slashed(s, '\\'), '"'), '`'), '$')
  }

  lemma OneCharacter(c: char, d: char)
    ensures Slashed([c], d) == if c == d then ['\\', c] else [c]
  {
    assert [c][1..] == "";
    assert Slashed([c], d) == (if c == d then ['\\', c] else [c]) + Slashed("", d);
  }

  lemma ChainedCharacter(c: char)
    ensures Chained([c]) == Escape([c])
  {
    assert [c][1..] == "";
    var pair := ['\\', c];
    assert pair == ['\\'] + [c];
    OneCharacter(c, '\\'); OneCharacter(c, '"'); OneCharacter(c, '`'); OneCharacter(c, '$');
    OneCharacter('\\', '"'); OneCharacter('\\', '`'); OneCharacter('\\', '$');
    ReplaceAppend(['\\'], [c], '"', ['\\', '"']);
    ReplaceAppend(['\\'], [c], '`', ['\\', '`']);
    ReplaceAppend(['\\'], [c], '$', ['\\', '$']);
  }

  lemma ChainedAppend(a: string, b: string)
    ensures Chained(a + b) == Chained(a) + Chained(b)
  {
    ReplaceAppend(a, b, '\\', ['\\', '\\']);
    var a1, b1 := Slashed(a, '\\'), Slashed(b, '\\');
    ReplaceAppend(a1, b1, '"', ['\\', '"']);
    var a2, b2 := Slashed(a1, '"'), Slashed(b1, '"');
    ReplaceAppend(a2, b2, '`', ['\\', '`']);
    ReplaceAppend(Slashed(a2, '`'), Slashed(b2, '`'), '$', ['\\', '$']);
  }

  /** Replacing the four reserved characters one after another, backslash first, escapes each exactly once. */
  lemma {:induction false} ChainIsOnePass(s: string)
    ensures Chained(s) == Escape(s)
  {
    if s != "" {
      assert s == [s[0]] + s[1..];
      assert [s[0]][1..] == "";
      ChainedAppend([s[0]], s[1..]);
      ChainedCharacter(s[0]);
      ChainIsOnePass(s[1..]);
    }
  }

  /** The nested `quote`: successive whole-string replacements. */
  method Quote(value: string) returns (argument: string)
    ensures argument == Quoted(value)
  {
    argument := Replace(value, '%', "%%");
    ghost var doubled := argument;
    var reserved := ['\\', '"', '`', '$'];
    for i := 0 to 4
      invariant argument == (if i == 0 then doubled
                             else if i == 1 then Slashed(doubled, '\\')
                             else if i == 2 then Slashed(Slashed(doubled, '\\'), '"')
                             else if i == 3 then Slashed(Slashed(Slashed(doubled, '\\'), '"'), '`')
                             else Chained(doubled))
    {
      argument := Replace(argument, reserved[i], ['\\', reserved[i]]);
    }
    ChainIsOnePass(doubled);
    argument := "\"" + argument + "\"";
  }

  // ---- undoing the quotation --------------------------------------------------

  /** Inside double quotes a backslash escapes only a reserved character. */
  function Unescape(s: string): string {
    if s == "" then ""
    else if |s| > 1 && s[0] == '\\' && Reserved(s[1]) then [s[1]] + Unescape(s[2..])
    else [s[0]] + Unescape(s[1..])
  }

  /** Field-code expansion: `%%` is a percent sign; any other use of it is a field code. */
  function Expand(s: string): Option<string> {
    if s == "" then Some("")
    else if s[0] != '%' then
      match Expand(s[1..]) case None => None case Some(rest) => Some([s[0]] + rest)
    else if |s| > 1 && s[1] == '%' then
      match Expand(s[2..]) case None => None case Some(rest) => Some("%" + rest)
    else None
  }

  function Unquoted(token: string): string
    requires |token| >= 2
  {
    Unescape(token[1..|token| - 1])
  }

  lemma {:induction false} UnescapeEscape(s: string)
    ensures Unescape(Escape(s)) == s
  {
    if s != "" {
      UnescapeEscape(s[1..]);
      var e := Escape(s);
      if Reserved(s[0]) {
        assert e[2..] == Escape(s[1..]);
      } else {
        assert e[0] == s[0] && e[1..] == Escape(s[1..]);
      }
      assert s == [s[0]] + s[1..];
    }
  }

  lemma {:induction false} ExpandDoubled(s: string)
    ensures Expand(Doubled(s)) == Some(s)
  {
    if s != "" {
      ExpandDoubled(s[1..]);
      var d := Doubled(s);
      if s[0] == '%' {
        assert d[2..] == Doubled(s[1..]) && d[1] == '%';
      } else {
        assert d[1..] == Doubled(s[1..]);
      }
      assert s == [s[0]] + s[1..];
    }
  }

  lemma ExpandPlain(c: char, rest: string)
    requires c != '%'
    ensures Expand([c] + rest) == match Expand(rest) case None => None case Some(r) => Some([c] + r)
  {
    assert ([c] + rest)[1..] == rest;
  }

  lemma EscapeCons(c: char, rest: string)
    ensures Escape([c] + rest) == (if Reserved(c) then ['\\', c] else [c]) + Escape(rest)
  {
    assert ([c] + rest)[1..] == rest;
  }

  lemma DoubledCons(s: string)
    requires s != ""
    ensures Doubled(s) == (if s[0] == '%' then ['%'] + (['%'] + Doubled(s[1..])) else [s[0]] + Doubled(s[1..]))
  {
  }

  lemma ExpandPercent(rest: string)
    ensures Expand(['%'] + (['%'] + rest)) == match Expand(rest) case None => None case Some(r) => Some("%" + r)
  {
    var s := ['%'] + (['%'] + rest);
    assert s[1] == '%' && s[2..] == rest;
  }

  /** One more original character in front of an already escaped text. */
  lemma ExpandEscapedStep(c: char, d: string, plain: string)
    requires Expand(Escape(d)) == Some(Escape(plain))
    ensures Expand(Escape(if c == '%' then ['%'] + (['%'] + d) else [c] + d)) == Some(Escape([c] + plain))
  {
    hide Expand, Escape;
    var rest := Escape(d);
    EscapeCons(c, plain);
    if c == '%' {
      EscapeCons('%', ['%'] + d);
      EscapeCons('%', d);
      ExpandPercent(rest);
      assert "%" == [c];
    } else {
      EscapeCons(c, d);
      ExpandPlain(c, rest);
      if Reserved(c) {
        assert ['\\', c] + rest == ['\\'] + ([c] + rest);
        assert ['\\', c] + Escape(plain) == ['\\'] + ([c] + Escape(plain));
        ExpandPlain('\\', [c] + rest);
      }
    }
  }

  lemma NothingExpands()
    ensures Expand(Escape(Doubled(""))) == Some(Escape(""))
  {
  }

  lemma {:induction false} ExpandEscaped(s: string)
    ensures Expand(Escape(Doubled(s))) == Some(Escape(s))
  {
    hide Expand, Escape, Doubled;
    if s == "" {
      NothingExpands();
    } else {
      ExpandEscaped(s[1..]);
      DoubledCons(s);
      assert s == [s[0]] + s[1..];
      ExpandEscapedStep(s[0], Doubled(s[1..]), s[1..]);
    }
  }

  /**
   The inserted token stands for exactly the original value, for every string, in
   whichever order a launcher undoes the quotation and expands field codes.
   */
  lemma QuotedRoundTrip(value: string)
    ensures Expand(Unquoted(Quoted(value))) == Some(value)
    ensures Expand(Quoted(value)).Some?
    ensures var expanded := Expand(Quoted(value)).value;
            |expanded| >= 2 && Unquoted(expanded) == value
  {
    hide Expand, Unescape, Escape, Doubled;
    var e := Escape(Doubled(value));
    var q := Quoted(value);
    assert q[1..|q| - 1] == e;
    UnescapeEscape(Doubled(value));
    ExpandDoubled(value);
    ExpandEscaped(value);
    ExpandClosing(e);
    assert q == ['"'] + (e + "\"");
    ExpandPlain('"', e + "\"");
    var expanded := Expand(q).value;
    assert expanded == ['"'] + (Escape(value) + "\"");
    assert expanded[1..|expanded| - 1] == Escape(value);
    UnescapeEscape(value);
  }

  lemma {:induction false} ExpandClosing(s: string)
    requires Expand(s).Some?
    ensures Expand(s + "\"") == Some(Expand(s).value + "\"")
    decreases |s|
  {
    if s == "" {
      assert s + "\"" == ['"'] + "";
      ExpandPlain('"', "");
    } else if s[0] != '%' {
      ExpandClosing(s[1..]);
      assert (s + "\"")[1..] == s[1..] + "\"";
      assert Expand(s).value == [s[0]] + Expand(s[1..]).value;
      assert Expand(s).value + "\"" == [s[0]] + (Expand(s[1..]).value + "\"");
      assert Expand(s + "\"") == Some([s[0]] + (Expand(s[1..]).value + "\""));
    } else {
      ExpandClosing(s[2..]);
      assert (s + "\"")[2..] == s[2..] + "\"";
      assert (s + "\"")[1] == '%';
      assert Expand(s).value + "\"" == "%" + (Expand(s[2..]).value + "\"");
      assert Expand(s + "\"") == Some("%" + (Expand(s[2..]).value + "\""));
    }
  }

  // ---- insertion --------------------------------------------------------------

  /** The text both callers insert: every argument quoted, each after one space. */
  function Inserted(arguments: seq<string>): string {
    if arguments == [] then "" else " " + Quoted(arguments[0]) + Inserted(arguments[1..])
  }

  function AllQuoted(arguments: seq<string>): seq<string> {
    seq(|arguments|, i requires 0 <= i < |arguments| => Quoted(arguments[i]))
  }

  lemma {:induction false} FeedAppend(s: Scan, a: string, b: string)
    ensures Feed(s, a + b) == Feed(Feed(s, a), b)
  {
    if b == "" {
      assert a + b == a;
    } else {
      assert (a + b)[..|a + b| - 1] == a + b[..|b| - 1];
      FeedAppend(s, a, b[..|b| - 1]);
    }
  }

  lemma FeedOne(s: Scan, c: char)
    ensures Feed(s, [c]) == Step(s, c)
  {
    assert [c][..0] == "";
  }

  /** Words already delimited never influence the scan. */
  lemma {:induction false} WordsInert(s: Scan, before: seq<string>, text: string)
    ensures Feed(s.(words := before + s.words), text) == Feed(s, text).(words := before + Feed(s, text).words)
  {
    if text != "" {
      WordsInert(s, before, text[..|text| - 1]);
      var t := Feed(s, text[..|text| - 1]);
      assert before + (t.words + [t.word]) == before + t.words + [t.word];
    }
  }

  lemma FeedNothing(s: Scan)
    ensures Feed(s, "") == s
  {
  }

  lemma FeedCons(s: Scan, c: char, rest: string)
    ensures Feed(s, [c] + rest) == Feed(Step(s, c), rest)
  {
    FeedAppend(s, [c], rest);
    FeedOne(s, c);
  }

  /** Escaped text never leaves the quotation it was put in. */
  lemma {:induction false} FeedEscaped(s: Scan, value: string)
    requires s.quote == Some('"') && !s.escaped && s.active
    ensures Feed(s, Escape(value)) == s.(word := s.word + Escape(value))
    decreases |value|
  {
    hide Feed;
    if value == "" {
      assert s.word + "" == s.word;
      FeedNothing(s);
    } else {
      var c, rest := value[0], Escape(value[1..]);
      assert value == [c] + value[1..];
      EscapeCons(c, value[1..]);
      if Reserved(c) {
        assert Escape(value) == ['\\'] + ([c] + rest);
        FeedCons(s, '\\', [c] + rest);
        FeedCons(Step(s, '\\'), c, rest);
        var t := s.(word := s.word + ['\\'] + [c]);
        FeedEscaped(t, value[1..]);
        assert t.word + rest == s.word + Escape(value);
      } else {
        FeedCons(s, c, rest);
        var t := s.(word := s.word + [c]);
        assert Step(s, c) == t;
        FeedEscaped(t, value[1..]);
        assert t.word + rest == s.word + Escape(value);
      }
    }
  }

  lemma FeedQuoted(s: Scan, value: string)
    requires Complete(s) && !s.active && s.word == ""
    ensures Feed(s, Quoted(value)) == s.(active := true, word := Quoted(value))
  {
    var e := Escape(Doubled(value));
    assert Quoted(value) == ['"'] + (e + ['"']);
    FeedCons(s, '"', e + ['"']);
    var within := s.(quote := Some('"'), active := true, word := ['"']);
    assert Step(s, '"') == within;
    FeedAppend(within, e, ['"']);
    FeedEscaped(within, Doubled(value));
    var last := within.(word := ['"'] + e);
    FeedOne(last, '"');
    assert Step(last, '"') == last.(quote := None, word := ['"'] + e + ['"']);
    assert ['"'] + e + ['"'] == Quoted(value);
  }

  /** Between two tokens: complete and at the last character of an active one. */
  predicate AtEnd(s: Scan) {
    Complete(s) && s.active
  }

  lemma {:induction false} FeedInserted(s: Scan, arguments: seq<string>)
    requires AtEnd(s)
    ensures var t := Feed(s, Inserted(arguments));
            AtEnd(t) && t.words + [t.word] == s.words + [s.word] + AllQuoted(arguments)
    decreases |arguments|
  {
    hide Feed, Quoted;
    if arguments == [] {
      FeedNothing(s);
    } else {
      var q := Quoted(arguments[0]);
      var rest := Inserted(arguments[1..]);
      assert Inserted(arguments) == " " + (q + rest);
      FeedAppend(s, " ", q + rest);
      FeedOne(s, ' ');
      var gap := s.(active := false, words := s.words + [s.word], word := "");
      FeedAppend(gap, q, rest);
      FeedQuoted(gap, arguments[0]);
      FeedInserted(gap.(active := true, word := q), arguments[1..]);
      assert AllQuoted(arguments) == [q] + AllQuoted(arguments[1..]);
    }
  }

  /** The state just before an offset that `token_ends` reported. */
  lemma {:induction false} EndMeaning(command: string, i: nat)
    requires i < |Cuts(command)|
    ensures var e := Cuts(command)[i];
            && e < |command|
            && AtEnd(Feed(START, command[..e]))
            && Separates(Feed(START, command[..e]), command[e])
            && |Feed(START, command[..e]).words| == i
  {
    CutCount(command);
    if command != "" {
      var n := |command| - 1;
      if i < |Cuts(command[..n])| {
        EndMeaning(command[..n], i);
        var e := Cuts(command)[i];
        assert command[..n][..e] == command[..e];
      } else {
        CutCount(command[..n]);
      }
    }
  }

  lemma {:induction false} CutCount(command: string)
    ensures |Cuts(command)| == |Feed(START, command).words|
  {
    if command != "" {
      CutCount(command[..|command| - 1]);
    }
  }

  lemma {:induction false} WordsGrow(s: Scan, text: string)
    ensures s.words <= Feed(s, text).words
  {
    if text != "" {
      WordsGrow(s, text[..|text| - 1]);
    }
  }

  /** A command splits at a reported end into a scan that has just ended a token, and the rest. */
  lemma SplitAtEnd(command: string, i: nat)
    requires Ends(command).Some? && i < |Ends(command).value|
    ensures var e := Ends(command).value[i];
            && e <= |command|
            && AtEnd(Feed(START, command[..e]))
            && |Feed(START, command[..e]).words| == i
            && (e < |command| ==> Separates(Feed(START, command[..e]), command[e]))
            && Feed(START, command) == Feed(Feed(START, command[..e]), command[e..])
  {
    var e := Ends(command).value[i];
    CutCount(command);
    if i < |Cuts(command)| {
      EndMeaning(command, i);
    } else {
      assert command[..e] == command;
    }
    assert command == command[..e] + command[e..];
    FeedAppend(START, command[..e], command[e..]);
  }

  /** How a tail is tokenized after any scan that has just ended a token. */
  lemma TailAfter(s: Scan, c: Option<char>, text: string)
    requires AtEnd(s) && (c.Some? ==> Separates(s, c.value)) && (c.None? ==> text == "")
    ensures var all := if c.None? then "" else [c.value] + text;
            var u := Feed(s, all);
            && Complete(u) == (c.None? || Complete(Feed(START, text)))
            && u.words + (if u.active then [u.word] else [])
            == s.words + [s.word] + if c.None? then [] else TailTokens(text)
  {
    if c.Some? {
      FeedCons(s, c.value, text);
      assert Step(s, c.value) == START.(words := (s.words + [s.word]) + START.words);
      WordsInert(START, s.words + [s.word], text);
    }
  }

  /**
   Inserting arguments at an offset that `token_ends` reported adds exactly their
   quoted forms after that token and leaves the text of every other token alone.
   */
  lemma InsertAddsExactly(command: string, i: nat, arguments: seq<string>)
    requires Ends(command).Some? && i < |Ends(command).value|
    ensures var e, tokens := Ends(command).value[i], Tokens(command).value;
            && e <= |command|
            && Ends(command[..e] + Inserted(arguments) + command[e..]).Some?
            && i < |tokens|
            && Tokens(command[..e] + Inserted(arguments) + command[e..])
            == Some(tokens[..i + 1] + AllQuoted(arguments) + tokens[i + 1..])
  {
    hide Feed, Separates, AllQuoted;
    var e, tokens := Ends(command).value[i], Tokens(command).value;
    SplitAtEnd(command, i);
    var s, ins := Feed(START, command[..e]), Inserted(arguments);
    FeedAppend(START, command[..e] + ins, command[e..]);
    FeedAppend(START, command[..e], ins);
    FeedInserted(s, arguments);
    var t := Feed(s, ins);
    var c := if e < |command| then Some(command[e]) else None;
    var text := if e < |command| then command[e + 1..] else "";
    assert command[e..] == if c.None? then "" else [c.value] + text;
    SeparatorOnly(s, t, c);
    TailAfter(s, c, text);
    TailAfter(t, c, text);
    var tail := if c.None? then [] else TailTokens(text);
    assert tokens == s.words + [s.word] + tail;
    assert tokens[..i + 1] == s.words + [s.word] && tokens[i + 1..] == tail;
  }

  lemma SeparatorOnly(s: Scan, t: Scan, c: Option<char>)
    requires AtEnd(s) && AtEnd(t) && (c.Some? ==> Separates(s, c.value))
    ensures c.Some? ==> Separates(t, c.value)
  {
  }

  /** The tokens a text contributes on its own. */
  function TailTokens(text: string): seq<string> {
    var u := Feed(START, text);
    u.words + if u.active then [u.word] else []
  }

  function Shifted(offsets: seq<nat>, distance: nat): (r: seq<nat>)
    ensures |r| == |offsets|
  {
    seq(|offsets|, i requires 0 <= i < |offsets| => offsets[i] + distance)
  }

  lemma CutsNothing(s: Scan)
    ensures CutsFrom(s, "") == []
  {
  }

  lemma CutsLast(s: Scan, text: string, c: char)
    ensures CutsFrom(s, text + [c]) == CutsFrom(s, text) +
      (if Separates(Feed(s, text), c) && Feed(s, text).active then [|text|] else [])
  {
    assert (text + [c])[..|text|] == text;
  }

  lemma {:induction false} CutsAppend(s: Scan, a: string, b: string)
    ensures CutsFrom(s, a + b) == CutsFrom(s, a) + Shifted(CutsFrom(Feed(s, a), b), |a|)
  {
    hide Feed, CutsFrom, Separates;
    if b == "" {
      assert a + b == a;
      CutsNothing(Feed(s, a));
    } else {
      var n := |b| - 1;
      var c, most := b[n], b[..n];
      assert b == most + [c] && a + b == a + most + [c];
      CutsAppend(s, a, most);
      FeedAppend(s, a, most);
      CutsLast(s, a + most, c);
      CutsLast(Feed(s, a), most, c);
    }
  }

  lemma {:induction false} CutsIgnoreWords(s: Scan, words: seq<string>, word: string, text: string)
    ensures CutsFrom(s.(words := words, word := word), text) == CutsFrom(s, text)
    ensures var u, t := Feed(s.(words := words, word := word), text), Feed(s, text);
            u.quote == t.quote && u.escaped == t.escaped && u.active == t.active
  {
    if text != "" {
      CutsIgnoreWords(s, words, word, text[..|text| - 1]);
    }
  }

  lemma {:induction false} CutsBelow(s: Scan, text: string)
    ensures |Feed(s, text).words| == |s.words| + |CutsFrom(s, text)|
  {
    if text != "" {
      CutsBelow(s, text[..|text| - 1]);
    }
  }

  /** Every end up to the chosen token stays where it was; every later end moves by the inserted length. */
  lemma EndsShift(command: string, i: nat, arguments: seq<string>)
    requires Ends(command).Some? && i < |Ends(command).value|
    ensures var ends := Ends(command).value;
            var ins := Inserted(arguments);
            && ends[i] <= |command|
            && (var longer := Ends(command[..ends[i]] + ins + command[ends[i]..]);
                && longer.Some?
                && |longer.value| == |ends| + |arguments|
                && (forall j :: 0 <= j < i ==> longer.value[j] == ends[j])
                && (forall j :: i < j < |ends| ==> longer.value[j + |arguments|] == ends[j] + |ins|))
  {
    hide Feed, CutsFrom, Separates;
    var ends, ins := Ends(command).value, Inserted(arguments);
    var e := ends[i];
    InsertAddsExactly(command, i, arguments);
    CutCount(command);
    SplitAtEnd(command, i);
    var head, tail := command[..e], command[e..];
    assert command == head + tail;
    var longer := head + ins + tail;
    CutCount(longer);
    CutCount(head);
    var s := Feed(START, head);
    CutsAppend(START, head, tail);
    FeedAppend(START, head, tail);
    CutsAppend(START, head + ins, tail);
    CutsAppend(START, head, ins);
    FeedAppend(START, head + ins, tail);
    FeedAppend(START, head, ins);
    FeedInserted(s, arguments);
    var t := Feed(s, ins);
    CutsBelow(s, ins);
    assert t == s.(words := t.words, word := t.word);
    CutsIgnoreWords(s, t.words, t.word, tail);
    assert |s.words| == i;
    assert |CutsFrom(s, ins)| == |arguments|;
    var rest := CutsFrom(s, tail);
    assert Cuts(command) == Cuts(head) + Shifted(rest, e);
    assert Cuts(longer) == Cuts(head) + Shifted(CutsFrom(s, ins), e) + Shifted(rest, e + |ins|);
  }

  /**
   The insertion both callers make, argument by argument: the token at position
   `i` keeps its place, the quoted arguments follow it and nothing else changes.
   */
  method InsertArguments(command: string, i: nat, arguments: seq<string>) returns (result: Option<string>)
    ensures result.Some? <==> Ends(command).Some? && i < |Ends(command).value|
    ensures result.Some? ==>
      var tokens := Tokens(command).value;
      && i < |tokens|
      && Tokens(result.value) == Some(tokens[..i + 1] + AllQuoted(arguments) + tokens[i + 1..])
  {
    var ends := TokenEnds(command);
    if ends.None? || i >= |ends.value| {
      return None;
    }
    var offset := ends.value[i];
    var inserted := "";
    for k := 0 to |arguments|
      invariant inserted == Inserted(arguments[..k])
    {
      var argument := Quote(arguments[k]);
      assert arguments[..k + 1] == arguments[..k] + [arguments[k]];
      InsertedSnoc(arguments[..k], arguments[k]);
      inserted := inserted + (" " + argument);
    }
    assert arguments[..|arguments|] == arguments;
    InsertAddsExactly(command, i, arguments);
    result := Some(command[..offset] + inserted + command[offset..]);
  }

  lemma {:induction false} InsertedSnoc(arguments: seq<string>, last: string)
    ensures Inserted(arguments + [last]) == Inserted(arguments) + (" " + Quoted(last))
  {
    if arguments == [] {
      assert [last][1..] == [];
    } else {
      assert (arguments + [last])[1..] == arguments[1..] + [last];
      InsertedSnoc(arguments[1..], last);
    }
  }
}
