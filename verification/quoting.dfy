/** The shell and YAML printers of the development tool, against readers that follow the standards:
    sections 2.2.1 and 2.2.2 of POSIX.1-2017 XCU, and sections 5.7 and 7.3.1 of YAML 1.2.2.
 */
module Quoting {
  import opened Wrappers

  // ---------- shell ----------

  function QuotedBody(value: string): string {
    if value == "" then ""
    else
      var (before, ch) := (QuotedBody(value[..|value| - 1]), value[|value| - 1]);
      before + if ch == '\'' then "'\\''" else [ch]
  }

  function Quoted(value: string): string {
    "'" + QuotedBody(value) + "'"
  }

  /** `shell_single_quote` */
  method ShellSingleQuote(value: string) returns (out: string)
    ensures out == Quoted(value)
  {
    if value == "" { return "''"; }
    out := "'";
    for i := 0 to |value|
      invariant out == "'" + QuotedBody(value[..i])
    {
      var ch := value[i];
      assert value[..i + 1][..i] == value[..i];
      if ch == '\'' {
        out := out + "'\\''";
      } else {
        out := out + [ch];
      }
    }
    assert value[..|value|] == value;
    out := out + "'";
  }

  predicate Blank(c: char) { c == ' ' || c == '\t' || c == '\n' }

  /** Characters that, unquoted, the shell takes or may take for something other than themselves;
      `=` is left out, as words of the form name=value are read here. */
  predicate Special(c: char) {
    c in {'|', '&', ';', '<', '>', '(', ')', '$', '`', '"', '*', '?', '[', ']', '#', '~', '%'}
  }

  datatype Mode = Plain | Single

  function Prepend(c: char, read: Option<(string, string)>): Option<(string, string)> {
    match read
    case None => None
    case Some((word, rest)) => Some(([c] + word, rest))
  }

  /** Reads the rest of a word: its value after quote removal, and the text behind it. `None` is for
      text that is not finished or is not one literal word. */
  function ReadWord(text: string, mode: Mode): Option<(string, string)>
    decreases |text|
  {
    match mode
    case Single =>
      // section 2.2.2: every character keeps its value up to the closing quote
      if text == "" then None
      else if text[0] == '\'' then ReadWord(text[1..], Plain)
      else Prepend(text[0], ReadWord(text[1..], Single))
    case Plain =>
      if text == "" || Blank(text[0]) then Some(("", text))
      else if text[0] == '\'' then ReadWord(text[1..], Single)
      else if text[0] == '\\' then
        // section 2.2.1: the next character keeps its value, except that a line break continues the line
        if |text| == 1 then None
        else if text[1] == '\n' then ReadWord(text[2..], Plain)
        else Prepend(text[1], ReadWord(text[2..], Plain))
      else if Special(text[0]) then None
      else Prepend(text[0], ReadWord(text[1..], Plain))
  }

  /** Reads one word, which there must be. */
  function ReadToken(text: string): Option<(string, string)> {
    if text == "" || Blank(text[0]) then None else ReadWord(text, Plain)
  }

  predicate WordEnds(rest: string) { rest == "" || Blank(rest[0]) }

  function Prefixed(value: string, read: Option<(string, string)>): Option<(string, string)> {
    match read
    case None => None
    case Some((word, rest)) => Some((value + word, rest))
  }

  /** The quoted body, read inside quotes, adds exactly the value. */
  lemma {:induction false} ReadQuotedBody(value: string, rest: string)
    ensures ReadWord(QuotedBody(value) + rest, Single) == Prefixed(value, ReadWord(rest, Single))
    decreases |value|
  {
    if value == "" {
      assert QuotedBody(value) + rest == rest;
      assert forall w: string :: "" + w == w;
    } else {
      var (front, ch) := (value[..|value| - 1], value[|value| - 1]);
      var piece := if ch == '\'' then "'\\''" else [ch];
      assert QuotedBody(value) + rest == QuotedBody(front) + (piece + rest);
      ReadQuotedBody(front, piece + rest);
      ReadPiece(ch, rest);
      assert value == front + [ch];
      assert forall w: string :: front + ([ch] + w) == value + w;
    }
  }

  lemma ReadPiece(ch: char, rest: string)
    ensures ReadWord((if ch == '\'' then "'\\''" else [ch]) + rest, Single) == Prepend(ch, ReadWord(rest, Single))
  {
    if ch == '\'' {
      var t := "'\\''" + rest;
      var u, v := t[1..], t[3..];
      assert u[2..] == v && v[1..] == rest;
      assert ReadWord(t, Single) == ReadWord(u, Plain);
      assert u[0] == '\\' && u[1] == '\'' && v[0] == '\'';
      assert ReadWord(v, Plain) == ReadWord(rest, Single);
    } else {
      assert ([ch] + rest)[1..] == rest;
    }
  }

  /** Shell round trip: for every string, the printed form reads as one word equal to it, and the word
      ends where the printed form does. */
  lemma ShellRoundTrip(value: string, rest: string)
    requires WordEnds(rest)
    ensures ReadToken(Quoted(value) + rest) == Some((value, rest))
  {
    var t := Quoted(value) + rest;
    assert t[1..] == QuotedBody(value) + ("'" + rest);
    ReadQuotedBody(value, "'" + rest);
    assert ("'" + rest)[1..] == rest;
    assert value + "" == value;
  }

  // ---------- lines of exports ----------

  predicate NameChar(c: char) { 'a' <= c <= 'z' || 'A' <= c <= 'Z' || '0' <= c <= '9' || c == '_' }

  /** A variable name of the shell; its first character is no digit. */
  predicate IsName(key: string) {
    key != "" && !('0' <= key[0] <= '9') && forall i :: 0 <= i < |key| ==> NameChar(key[i])
  }

  /** `emit_env`, with the line break that ends its line. */
  function EmitEnv(key: string, value: string): string {
    "export " + key + "=" + Quoted(value) + "\n"
  }

  function EmitAll(env: seq<(string, string)>): string {
    if env == [] then "" else EmitEnv(env[0].0, env[0].1) + EmitAll(env[1..])
  }

  /** Splits a word at its first `=`. */
  function SplitAssignment(word: string): Option<(string, string)> {
    if word == "" then None
    else if word[0] == '=' then Some(("", word[1..]))
    else Prepend(word[0], SplitAssignment(word[1..]))
  }

  function ReadExport(text: string): Option<((string, string), string)> {
    if !(|text| >= 7 && text[..7] == "export ") then None
    else
      match ReadToken(text[7..])
      case None => None
      case Some((word, rest)) =>
        if rest == "" || rest[0] != '\n' then None
        else
          match SplitAssignment(word)
          case None => None
          case Some(pair) => Some((pair, rest[1..]))
  }

  /** The variables a script of export lines sets, in order. */
  function ReadExports(text: string, lines: nat): Option<seq<(string, string)>>
    decreases lines
  {
    if text == "" then Some([])
    else if lines == 0 then None
    else
      match ReadExport(text)
      case None => None
      case Some((pair, rest)) =>
        match ReadExports(rest, lines - 1)
        case None => None
        case Some(pairs) => Some([pair] + pairs)
  }

  lemma {:induction false} ReadName(key: string, rest: string)
    requires forall i :: 0 <= i < |key| ==> NameChar(key[i])
    ensures ReadWord(key + "=" + rest, Plain) == Prefixed(key + "=", ReadWord(rest, Plain))
    decreases |key|
  {
    var t := key + "=" + rest;
    if key == "" {
      assert t[0] == '=' && t[1..] == rest;
      assert key + "=" == "=";
    } else {
      assert t[0] == key[0] && NameChar(t[0]) && t[1..] == key[1..] + "=" + rest;
      ReadName(key[1..], rest);
      assert key + "=" == [key[0]] + (key[1..] + "=");
      assert forall w: string :: [key[0]] + ((key[1..] + "=") + w) == (key + "=") + w;
    }
  }

  lemma {:induction false} SplitName(key: string, value: string)
    requires forall i :: 0 <= i < |key| ==> NameChar(key[i])
    ensures SplitAssignment(key + "=" + value) == Some((key, value))
    decreases |key|
  {
    var t := key + "=" + value;
    if key == "" {
      assert t[0] == '=' && t[1..] == value;
    } else {
      assert t[0] == key[0] && NameChar(t[0]) && t[1..] == key[1..] + "=" + value;
      SplitName(key[1..], value);
      assert key == [key[0]] + key[1..];
    }
  }

  lemma ReadEmitted(key: string, value: string, rest: string)
    requires IsName(key)
    ensures ReadExport(EmitEnv(key, value) + rest) == Some(((key, value), rest))
  {
    var t, line := EmitEnv(key, value) + rest, "\n" + rest;
    assert t[..7] == "export " && t[7..] == key + "=" + (Quoted(value) + line);
    ReadName(key, Quoted(value) + line);
    ShellRoundTrip(value, line);
    SplitName(key, value);
    assert line[1..] == rest && t[7..][0] == key[0];
  }

  /** A script of exports sets exactly the variables it was printed from, to exactly their values. */
  lemma {:induction false} ExportsRoundTrip(env: seq<(string, string)>)
    requires forall i :: 0 <= i < |env| ==> IsName(env[i].0)
    ensures ReadExports(EmitAll(env), |env|) == Some(env)
    decreases |env|
  {
    if env != [] {
      ReadEmitted(env[0].0, env[0].1, EmitAll(env[1..]));
      ExportsRoundTrip(env[1..]);
      assert env == [env[0]] + env[1..];
    }
  }

  // ---------- YAML ----------

  /** `str::replace` of one character. */
  function Replace(s: string, c: char, with: string): string {
    if s == "" then "" else (if s[0] == c then with else [s[0]]) + Replace(s[1..], c, with)
  }

  function YamlEscape(value: string): string {
    Replace(Replace(value, '\\', "\\\\"), '"', "\\\"")
  }

  /** The single-character escapes; hexadecimal ones are not read here. */
  function Unescape(c: char): Option<string> {
    match c
    case '0' => Some([0 as char])
    case 'a' => Some([7 as char])
    case 'b' => Some([8 as char])
    case 't' => Some("\t")
    case '\t' => Some("\t")
    case 'n' => Some("\n")
    case 'v' => Some([11 as char])
    case 'f' => Some([12 as char])
    case 'r' => Some("\r")
    case 'e' => Some([27 as char])
    case ' ' => Some(" ")
    case '"' => Some("\"")
    case '/' => Some("/")
    case '\\' => Some("\\")
    case 'N' => Some([0xC2 as char, 0x85 as char])
    case '_' => Some([0xC2 as char, 0xA0 as char])
    case 'L' => Some([0xE2 as char, 0x80 as char, 0xA8 as char])
    case 'P' => Some([0xE2 as char, 0x80 as char, 0xA9 as char])
    case _ => None
  }

  /** What may stand for itself in a double-quoted scalar, within a line: tab and everything from space on. */
  predicate OneLineChar(c: char) { c == '\t' || c as int >= 0x20 }

  predicate OneLine(s: string) { forall i :: 0 <= i < |s| ==> OneLineChar(s[i]) }

  predicate White(c: char) { c == ' ' || c == '\t' }

  predicate Break(c: char) { c == '\n' || c == '\r' }

  /** What stands behind the line break that `text` begins with; a carriage return with a line feed is one. */
  function AfterBreak(text: string): (rest: string)
    requires text != "" && Break(text[0])
    ensures |rest| < |text|
  {
    if |text| > 1 && text[0] == '\r' && text[1] == '\n' then text[2..] else text[1..]
  }

  /** What has been read and not yet taken: blanks, which count unless a line break follows, or line breaks,
      the first of them escaped or not, with the blanks around them. */
  datatype Pending = Blanks(s: string) | Breaks(count: nat, escaped: bool)

  function NewLines(n: nat): (s: string)
    ensures |s| == n && forall i :: 0 <= i < n ==> s[i] == '\n'
  {
    seq(n, i => '\n')
  }

  /** Flow folding (section 7.3.1, by 6.5): a line break becomes a space, or nothing if it is escaped; of
      more, all but the first stay, as line feeds. */
  function Taken(p: Pending): string {
    match p
    case Blanks(s) => s
    case Breaks(k, escaped) => if k > 1 then NewLines(k - 1) else if escaped then "" else " "
  }

  function BreakAfter(p: Pending): Pending {
    match p
    case Blanks(_) => Breaks(1, false)
    case Breaks(k, escaped) => Breaks(k + 1, escaped)
  }

  function BlankAfter(p: Pending, c: char): Pending {
    match p
    case Blanks(s) => Blanks(s + [c])
    case Breaks(_, _) => p
  }

  /** Reads the rest of a double-quoted scalar: its value and the text behind it. */
  function ReadScalar(text: string, p: Pending): Option<(string, string)>
    decreases |text|
  {
    if text == "" then None
    else if text[0] == '"' then Some((Taken(p), text[1..]))
    else if White(text[0]) then ReadScalar(text[1..], BlankAfter(p, text[0]))
    else if Break(text[0]) then ReadScalar(AfterBreak(text), BreakAfter(p))
    else if text[0] == '\\' then
      if |text| == 1 then None
      else if Break(text[1]) then Prefixed(Taken(p), ReadScalar(AfterBreak(text[1..]), Breaks(1, true)))
      else if Unescape(text[1]).None? then None
      else Prefixed(Taken(p) + Unescape(text[1]).value, ReadScalar(text[2..], Blanks("")))
    else if !OneLineChar(text[0]) then None
    else Prefixed(Taken(p) + [text[0]], ReadScalar(text[1..], Blanks("")))
  }

  function ReadQuotedScalar(text: string): Option<(string, string)> {
    if text == "" || text[0] != '"' then None else ReadScalar(text[1..], Blanks(""))
  }

  lemma {:induction false} ReplaceAppend(a: string, b: string, c: char, with: string)
    ensures Replace(a + b, c, with) == Replace(a, c, with) + Replace(b, c, with)
  {
    if a == "" {
      assert a + b == b;
    } else {
      assert (a + b)[1..] == a[1..] + b;
      ReplaceAppend(a[1..], b, c, with);
    }
  }

  function EscapeChar(c: char): string {
    if c == '\\' then "\\\\" else if c == '"' then "\\\"" else [c]
  }

  lemma EscapeHead(value: string)
    requires value != ""
    ensures YamlEscape(value) == EscapeChar(value[0]) + YamlEscape(value[1..])
  {
    var head := if value[0] == '\\' then "\\\\" else [value[0]];
    ReplaceAppend(head, Replace(value[1..], '\\', "\\\\"), '"', "\\\"");
    if value[0] == '\\' {
      assert "\\\\"[1..] == "\\" && "\\"[1..] == "";
      assert Replace("\\", '"', "\\\"") == "\\";
      assert Replace("\\\\", '"', "\\\"") == "\\\\";
    } else {
      assert [value[0]][1..] == "";
      assert Replace([value[0]], '"', "\\\"") == EscapeChar(value[0]);
    }
  }

  /** A character that is neither blank nor a line break, escaped if need be, is read as itself. */
  lemma ReadEscapedChar(c: char, rest: string, p: Pending)
    requires !White(c) && !Break(c)
    ensures ReadScalar(EscapeChar(c) + rest, p) ==
      if OneLineChar(c) then Prefixed(Taken(p) + [c], ReadScalar(rest, Blanks(""))) else None
  {
    var t := EscapeChar(c) + rest;
    if c == '\\' || c == '"' {
      assert t[0] == '\\' && t[1] == c && t[2..] == rest;
      assert Unescape(c) == Some([c]);
    } else {
      assert t[0] == c && t[1..] == rest;
    }
  }

  /** The text between which and the end of input the escaped value stands. */
  function Rest(value: string, rest: string): string {
    YamlEscape(value) + "\"" + rest
  }

  lemma RestStep(value: string, rest: string)
    requires value != ""
    ensures Rest(value, rest) == EscapeChar(value[0]) + Rest(value[1..], rest)
  {
    EscapeHead(value);
    Regroup(EscapeChar(value[0]), YamlEscape(value[1..]), "\"", rest);
  }

  lemma Regroup(a: string, b: string, c: string, d: string)
    ensures (a + b) + c + d == a + (b + c + d)
  {
  }

  /** A value within one line comes back behind the blanks read before it. */
  lemma {:induction false} ReadOneLine(value: string, rest: string, s: string)
    requires OneLine(value)
    ensures ReadScalar(Rest(value, rest), Blanks(s)) == Some((s + value, rest))
    decreases |value|
  {
    if value == "" {
      assert Rest(value, rest) == "\"" + rest;
      assert s + value == s;
    } else {
      var c, tail := value[0], value[1..];
      RestStep(value, rest);
      assert OneLineChar(c) && OneLine(tail) && value == [c] + tail;
      if White(c) {
        var t := Rest(value, rest);
        assert t[0] == c && t[1..] == Rest(tail, rest);
        ReadOneLine(tail, rest, s + [c]);
        assert s + [c] + tail == s + value;
      } else {
        ReadEscapedChar(c, Rest(tail, rest), Blanks(s));
        ReadOneLine(tail, rest, "");
        assert (s + [c]) + ("" + tail) == s + value;
      }
    }
  }

  // ---------- line breaks are lost ----------

  function CountBreaks(s: string): nat {
    if s == "" then 0 else (if Break(s[0]) then 1 else 0) + CountBreaks(s[1..])
  }

  lemma {:induction false} CountAppend(a: string, b: string)
    ensures CountBreaks(a + b) == CountBreaks(a) + CountBreaks(b)
  {
    if a == "" {
      assert a + b == b;
    } else {
      assert (a + b)[1..] == a[1..] + b;
      CountAppend(a[1..], b);
    }
  }

  lemma {:induction false} CountAll(s: string)
    requires forall i :: 0 <= i < |s| ==> s[i] == '\n'
    ensures CountBreaks(s) == |s|
  {
    if s != "" { CountAll(s[1..]); }
  }

  lemma {:induction false} CountNone(s: string)
    requires forall i :: 0 <= i < |s| ==> !Break(s[i])
    ensures CountBreaks(s) == 0
  {
    if s != "" { CountNone(s[1..]); }
  }

  predicate WellPending(p: Pending) {
    match p
    case Blanks(s) => forall i :: 0 <= i < |s| ==> White(s[i])
    case Breaks(k, _) => k > 0
  }

  /** The line breaks that what is pending will leave. */
  function Left(p: Pending): nat
    requires WellPending(p)
  {
    if p.Blanks? then 0 else p.count - 1
  }

  lemma TakenCounts(p: Pending)
    requires WellPending(p)
    ensures CountBreaks(Taken(p)) == Left(p)
  {
    match p
    case Blanks(s) => CountNone(s);
    case Breaks(k, _) =>
      if k > 1 { CountAll(NewLines(k - 1)); } else { CountNone(Taken(p)); }
  }

  /** How many line breaks a value read behind `p` can have: with none pending, one less than were written. */
  function AtMost(value: string, p: Pending): nat
    requires WellPending(p)
  {
    var n := CountBreaks(value);
    if p.Blanks? && n > 0 then n - 1 else n + Left(p)
  }

  ghost predicate Loses(read: Option<(string, string)>, most: nat) {
    read.Some? ==> CountBreaks(read.value.0) <= most
  }

  lemma PrefixLoses(prefix: string, read: Option<(string, string)>, most: nat)
    requires Loses(read, most)
    ensures Loses(Prefixed(prefix, read), CountBreaks(prefix) + most)
  {
    if read.Some? { CountAppend(prefix, read.value.0); }
  }

  lemma {:induction false} ReadLosesBreaks(value: string, rest: string, p: Pending)
    requires WellPending(p)
    ensures Loses(ReadScalar(Rest(value, rest), p), AtMost(value, p))
    decreases |value|
  {
    var t := Rest(value, rest);
    if value == "" {
      assert t == "\"" + rest;
      TakenCounts(p);
    } else {
      var c, tail := value[0], value[1..];
      RestStep(value, rest);
      var u := Rest(tail, rest);
      if White(c) {
        assert t[0] == c && t[1..] == u;
        ReadLosesBreaks(tail, rest, BlankAfter(p, c));
      } else if Break(c) {
        ReadBreakLoses(value, rest, p);
      } else {
        ReadEscapedChar(c, u, p);
        ReadLosesBreaks(tail, rest, Blanks(""));
        TakenCounts(p);
        CountAppend(Taken(p), [c]);
        assert [c][1..] == "";
        PrefixLoses(Taken(p) + [c], ReadScalar(u, Blanks("")), AtMost(tail, Blanks("")));
      }
    }
  }

  lemma {:induction false} ReadBreakLoses(value: string, rest: string, p: Pending)
    requires WellPending(p) && value != "" && Break(value[0])
    ensures Loses(ReadScalar(Rest(value, rest), p), AtMost(value, p))
    decreases |value|, 0
  {
    var t := Rest(value, rest);
    RestStep(value, rest);
    assert t[0] == value[0] && t[1..] == Rest(value[1..], rest);
    if |value| > 1 && value[0] == '\r' && value[1] == '\n' {
      RestStep(value[1..], rest);
      assert t[1] == '\n' && t[2..] == Rest(value[2..], rest) && value[1..][1..] == value[2..];
      ReadLosesBreaks(value[2..], rest, BreakAfter(p));
    } else {
      FirstOfRest(value[1..], rest);
      assert AfterBreak(t) == Rest(value[1..], rest);
      ReadLosesBreaks(value[1..], rest, BreakAfter(p));
    }
  }

  /** Only a line feed of the value itself stands behind a carriage return. */
  lemma FirstOfRest(value: string, rest: string)
    ensures Rest(value, rest) != "" && (Rest(value, rest)[0] == '\n' ==> value != "" && value[0] == '\n')
  {
    if value == "" {
      assert Rest(value, rest) == "\"" + rest;
    } else {
      RestStep(value, rest);
    }
  }

  lemma {:induction false} HasBreak(s: string, i: nat)
    requires i < |s| && Break(s[i])
    ensures CountBreaks(s) > 0
  {
    if i > 0 { HasBreak(s[1..], i - 1); }
  }

  /** A line break never comes back: a value with any reads, if at all, as one with fewer. */
  lemma LineBreaksAreLost(value: string, rest: string, i: nat)
    requires i < |value| && Break(value[i])
    ensures var read := ReadQuotedScalar("\"" + YamlEscape(value) + "\"" + rest);
      read.Some? ==> CountBreaks(read.value.0) < CountBreaks(value)
  {
    var t := "\"" + YamlEscape(value) + "\"" + rest;
    assert t[1..] == Rest(value, rest);
    HasBreak(value, i);
    ReadLosesBreaks(value, rest, Blanks(""));
  }

  /** Control characters are refused. */
  lemma {:induction false} ControlIsRefused(value: string, rest: string, i: nat, p: Pending)
    requires i < |value| && !OneLineChar(value[i]) && !Break(value[i])
    ensures ReadScalar(Rest(value, rest), p).None?
    decreases |value|
  {
    var c, tail, t := value[0], value[1..], Rest(value, rest);
    RestStep(value, rest);
    if White(c) {
      assert t[0] == c && t[1..] == Rest(tail, rest);
      ControlIsRefused(tail, rest, i - 1, BlankAfter(p, c));
    } else if Break(c) {
      assert t[0] == c && t[1..] == Rest(tail, rest);
      if |value| > 1 && c == '\r' && value[1] == '\n' {
        RestStep(tail, rest);
        assert t[1] == '\n' && t[2..] == Rest(value[2..], rest) && tail[1..] == value[2..];
        ControlIsRefused(value[2..], rest, i - 2, BreakAfter(p));
      } else {
        FirstOfRest(tail, rest);
        assert AfterBreak(t) == Rest(tail, rest);
        ControlIsRefused(tail, rest, i - 1, BreakAfter(p));
      }
    } else {
      ReadEscapedChar(c, Rest(tail, rest), p);
      if i > 0 { ControlIsRefused(tail, rest, i - 1, Blanks("")); }
    }
  }

  /** YAML round trip: between double quotes the escaped form reads back as the value exactly when the
      value has no line break and no control character but tab. */
  lemma YamlRoundTrip(value: string, rest: string)
    ensures ReadQuotedScalar("\"" + YamlEscape(value) + "\"" + rest) == Some((value, rest)) <==> OneLine(value)
  {
    var t := "\"" + YamlEscape(value) + "\"" + rest;
    assert t[1..] == Rest(value, rest);
    if OneLine(value) {
      ReadOneLine(value, rest, "");
      assert "" + value == value;
    } else {
      var i :| 0 <= i < |value| && !OneLineChar(value[i]);
      if Break(value[i]) {
        LineBreaksAreLost(value, rest, i);
      } else {
        ControlIsRefused(value, rest, i, Blanks(""));
      }
    }
  }

  /** The order of the two replacements matters: the other way round a quote does not come back. */
  lemma OtherOrderFails()
    ensures ReadQuotedScalar("\"" + Replace(Replace("\"", '"', "\\\""), '\\', "\\\\") + "\"") != Some(("\"", ""))
  {
    assert Replace("\"", '"', "\\\"") == "\\\"" by { assert "\""[1..] == ""; }
    assert "\\\""[1..] == "\"" && "\""[1..] == "";
    assert Replace("\"", '\\', "\\\\") == "\"";
    assert Replace("\\\"", '\\', "\\\\") == "\\\\\"";
    var t := "\"" + "\\\\\"" + "\"";
    assert t[1..][0] == '\\' && t[1..][1] == '\\' && t[1..][2..][0] == '"';
  }
}
