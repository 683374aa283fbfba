/** The .env printer and parser of tools/dev.py. */
module Dotenv {
  import opened Basics
  import opened Text

  // ---- lines -----------------------------------------------------------------------------------------

  /** The characters at which str.splitlines() breaks. */
  predicate IsBreak(c: char) {
    || '\n' <= c <= '\r'
    || '\U{1c}' <= c <= '\U{1e}'
    || c in {'\U{85}', '\U{2028}', '\U{2029}'}
  }

  predicate OneLine(s: string) {
    forall c :: c in s ==> !IsBreak(c)
  }

  function FirstBreak(s: string): (n: nat)
    ensures n <= |s|
    ensures OneLine(s[..n])
    ensures n < |s| ==> IsBreak(s[n])
  {
    if s == "" || IsBreak(s[0]) then 0
    else
      var n := FirstBreak(s[1..]);
      assert s[..n + 1] == [s[0]] + s[1..][..n];
      n + 1
  }

  /** str.splitlines(). */
  function SplitLines(s: string): seq<string>
    decreases |s|
  {
    if s == "" then []
    else
      var n := FirstBreak(s);
      if n == |s| then [s]
      else if s[n..] == "\r\n" || "\r\n" < s[n..] then [s[..n]] + SplitLines(s[n + 2..])
      else [s[..n]] + SplitLines(s[n + 1..])
  }

  lemma {:induction false} LinesHaveNoBreaks(s: string)
    ensures forall l :: l in SplitLines(s) ==> OneLine(l)
    decreases |s|
  {
    if s != "" {
      var n := FirstBreak(s);
      assert n == |s| ==> s[..n] == s;
      if n < |s| {
        LinesHaveNoBreaks(s[n + 1..]);
        if s[n..] == "\r\n" || "\r\n" < s[n..] {
          LinesHaveNoBreaks(s[n + 2..]);
        }
      }
    }
  }

  lemma {:induction false} FirstBreakIs(line: string, rest: string)
    requires OneLine(line) && rest != "" && IsBreak(rest[0])
    ensures FirstBreak(line + rest) == |line|
  {
    if line == "" {
      assert line + rest == rest;
    } else {
      assert (line + rest)[1..] == line[1..] + rest;
      FirstBreakIs(line[1..], rest);
    }
  }

  /** Every break ends a line, a carriage return and a line feed together count as one, and a last line needs none. */
  lemma LinesAre(line: string, c: char, rest: string)
    requires OneLine(line)
    ensures SplitLines(line) == if line == "" then [] else [line]
    ensures SplitLines(line + "\r\n" + rest) == [line] + SplitLines(rest)
    ensures 10 <= c as int <= 13 || 28 <= c as int <= 30 ==>
      (c == '\r' && "\n" <= rest) || SplitLines(line + [c] + rest) == [line] + SplitLines(rest)
  {
    LastLine(line);
    SplitAtPair(line, rest);
    if (10 <= c as int <= 13 || 28 <= c as int <= 30) && !(c == '\r' && "\n" <= rest) {
      SplitAtBreak(line, c, rest);
    }
  }

  lemma LastLine(line: string)
    requires OneLine(line)
    ensures SplitLines(line) == if line == "" then [] else [line]
  {
    if line != "" && FirstBreak(line) < |line| {
      NoBreakAt(line, FirstBreak(line));
    }
  }

  lemma NoBreakAt(line: string, n: nat)
    requires OneLine(line) && n < |line|
    ensures !IsBreak(line[n])
  {
  }

  lemma SplitAtPair(line: string, rest: string)
    requires OneLine(line)
    ensures SplitLines(line + "\r\n" + rest) == [line] + SplitLines(rest)
  {
    var s, tail := line + "\r\n" + rest, "\r\n" + rest;
    assert s == line + tail;
    FirstBreakIs(line, tail);
    assert s[..|line|] == line && s[|line|..] == tail && s[|line| + 2..] == rest;
    assert tail == "\r\n" || "\r\n" < tail;
  }

  lemma SplitAtBreak(line: string, c: char, rest: string)
    requires OneLine(line) && IsBreak(c) && !(c == '\r' && "\n" <= rest)
    ensures SplitLines(line + [c] + rest) == [line] + SplitLines(rest)
  {
    var s, tail := line + [c] + rest, [c] + rest;
    assert s == line + tail;
    FirstBreakIs(line, tail);
    assert s[..|line|] == line && s[|line|..] == tail && s[|line| + 1..] == rest;
    assert tail[1..] == rest && tail[0] == c;
    assert !("\r\n" <= tail);
  }

  // ---- one entry ---------------------------------------------------------------------------------------

  function Find(c: char, s: string): (i: nat)
    requires c in s
    ensures i < |s| && s[i] == c && c !in s[..i]
  {
    if s[0] == c then 0
    else
      var i := Find(c, s[1..]);
      assert s[..i + 1] == [s[0]] + s[1..][..i];
      i + 1
  }

  lemma {:induction false} FindFirst(c: char, a: string, b: string)
    requires c !in a
    ensures c in a + ([c] + b) && Find(c, a + ([c] + b)) == |a|
  {
    var s := a + ([c] + b);
    assert s[|a|] == c;
    if a != "" {
      assert s[1..] == a[1..] + ([c] + b);
      FindFirst(c, a[1..], b);
    }
  }

  /** One pair of matching quotes around a value. */
  predicate Quoted(v: string) {
    |v| >= 2 && v[0] == v[|v| - 1] && v[0] in {'\'', '"'}
  }

  function Unquote(v: string): string {
    if Quoted(v) then v[1..|v| - 1] else v
  }

  /** Quotes are taken off if and only if the same one, single or double, stands at both ends; one pair, not more. */
  lemma UnquoteIs(v: string)
    ensures Unquote("'" + v + "'") == v && Unquote("\"" + v + "\"") == v
    ensures Unquote(v) != v ==> v == "'" + Unquote(v) + "'" || v == "\"" + Unquote(v) + "\""
  {
    if Quoted(v) {
      assert v == [v[0]] + v[1..|v| - 1] + [v[|v| - 1]];
    }
  }

  datatype Entry = Entry(key: string, value: string)

  /** The body of the loop of read_dotenv: what one raw line contributes. */
  function ParseLine(raw: string): Option<Entry> {
    var line := Strip(raw);
    if line == "" || line[0] == '#' || '=' !in line then None
    else
      var i := Find('=', line);
      Some(Entry(Strip(line[..i]), Unquote(Strip(line[i + 1..]))))
  }

  /** What a line contributes: nothing if it is blank, a comment or without '=', and otherwise what is left of the first
      '=' as the key and what is right of it, stripped and unquoted, as the value. */
  lemma LineIs(raw: string, key: string, value: string)
    ensures Strip(raw) == "" ==> ParseLine(raw) == None
    ensures Strip(raw) != "" && Strip(raw)[0] == '#' ==> ParseLine(raw) == None
    ensures '=' !in Strip(raw) ==> ParseLine(raw) == None
    ensures Strip(raw) == key + "=" + value && '=' !in key && !("#" <= key) ==>
      ParseLine(raw) == Some(Entry(Strip(key), Unquote(Strip(value))))
  {
    if Strip(raw) == key + "=" + value && '=' !in key && !("#" <= key) {
      var line := key + "=" + value;
      assert line == key + (['='] + value);
      FindFirst('=', key, value);
      assert line[..|key|] == key && line[|key| + 1..] == value;
      assert key != "" ==> (key[0] == '#' <==> "#" <= key);
    }
  }

  /** A later line for a key wins over an earlier one, and touches no other key. */
  lemma EnterIs(values: map<string, string>, raw: string, e: Entry)
    ensures ParseLine(raw) == None ==> Enter(values, raw) == values
    ensures ParseLine(raw) == Some(e) ==>
      && e.key in Enter(values, raw) && Enter(values, raw)[e.key] == e.value
      && forall k :: k != e.key ==>
           (k in Enter(values, raw) <==> k in values) && (k in values ==> Enter(values, raw)[k] == values[k])
  {
  }

  function Enter(values: map<string, string>, raw: string): map<string, string> {
    match ParseLine(raw)
    case None => values
    case Some(e) => values[e.key := e.value]
  }

  function Fold(lines: seq<string>, values: map<string, string>): map<string, string> {
    if lines == [] then values else Fold(lines[1..], Enter(values, lines[0]))
  }

  /** The dictionary that a text stands for. */
  function Parse(text: string): map<string, string> {
    Fold(SplitLines(text), map[])
  }

  lemma FoldFirst(lines: seq<string>, i: nat, values: map<string, string>)
    requires i < |lines|
    ensures Fold(lines[i..], values) == Fold(lines[i + 1..], Enter(values, lines[i]))
  {
    assert lines[i..][1..] == lines[i + 1..];
  }

  lemma LineParses(raw: string, line: string, at: nat, value: string)
    requires line == Strip(raw) && line != "" && line[0] != '#' && '=' in line && at == Find('=', line)
    requires value == Strip(line[at + 1..])
    ensures ParseLine(raw) == Some(Entry(Strip(line[..at]), Unquote(value)))
  {
  }

  /** The body of the loop of read_dotenv. */
  method ReadLine(raw: string, before: map<string, string>) returns (values: map<string, string>)
    ensures values == Enter(before, raw)
  {
    var line := Strip(raw);
    if line == "" || line[0] == '#' || '=' !in line {
      return before;
    }
    var at := Find('=', line);
    var key, value := line[..at], line[at + 1..];
    value := Strip(value);
    LineParses(raw, line, at, value);
    if |value| >= 2 && value[0] == value[|value| - 1] && value[0] in {'\'', '"'} {
      value := value[1..|value| - 1];
    }
    values := before[Strip(key) := value];
  }

  /** read_dotenv; no text where the file does not exist. */
  method ReadDotenv(file: Option<string>) returns (values: map<string, string>)
    ensures values == if file.None? then map[] else Parse(file.value)
  {
    values := map[];
    if file.None? {
      return;
    }
    var lines := SplitLines(file.value);
    for i := 0 to |lines|
      invariant Fold(lines[i..], values) == Fold(lines, map[])
    {
      FoldFirst(lines, i, values);
      values := ReadLine(lines[i], values);
    }
  }

  /** The text that write_dotenv stores. */
  function Print(entries: seq<Entry>): string {
    if entries == [] then "" else entries[0].key + "=" + entries[0].value + "\n" + Print(entries[1..])
  }

  // ---- printing, then parsing ----------------------------------------------------------------------------

  lemma {:induction false} StripRightAfter(p: string, s: string)
    ensures StripRight(p + s) == if StripRight(s) == "" then StripRight(p) else p + StripRight(s)
    decreases |s|
  {
    if s == "" {
      assert p + s == p;
    } else {
      var t := s[..|s| - 1];
      assert (p + s)[..|p + s| - 1] == p + t;
      if IsSpace(s[|s| - 1]) { StripRightAfter(p, t); }
    }
  }

  lemma {:induction false} StripsCommute(s: string)
    ensures StripLeft(StripRight(s)) == StripRight(StripLeft(s))
  {
    if s != "" {
      StripRightAfter([s[0]], s[1..]);
      assert s == [s[0]] + s[1..];
      assert StripRight([s[0]]) == if IsSpace(s[0]) then "" else [s[0]];
      if IsSpace(s[0]) {
        StripsCommute(s[1..]);
        var r := StripRight(s[1..]);
        assert r != "" ==> ([s[0]] + r)[1..] == r;
      }
    }
  }

  lemma {:induction false} StripRightTwice(s: string)
    ensures StripRight(StripRight(s)) == StripRight(s)
  {
    StripRightKeepsHead(s);
  }

  predicate GoodKey(key: string) {
    key != "" && Trimmed(key) && OneLine(key) && key[0] != '#' && '=' !in key
  }

  /** An entry printed and parsed comes back with its value stripped and unquoted. */
  lemma EntryComesBack(key: string, value: string)
    requires GoodKey(key)
    ensures ParseLine(key + "=" + value) == Some(Entry(key, Unquote(Strip(value))))
  {
    PrintedLine(key, value);
    StripOfRight(value);
    StripTrims(key);
    LineIs(key + "=" + value, key, StripRight(value));
  }

  lemma PrintedLine(key: string, value: string)
    requires GoodKey(key)
    ensures Strip(key + "=" + value) == key + "=" + StripRight(value) && !("#" <= key)
  {
    var head := key + "=";
    var raw := head + value;
    assert StripLeft(raw) == raw;
    StripRightAfter(head, value);
    assert StripRight(head) == head;
  }

  lemma StripOfRight(value: string)
    ensures Strip(StripRight(value)) == Strip(value)
  {
    StripsCommute(value);
    StripRightTwice(value);
    StripsCommute(StripRight(value));
  }

  predicate Printable(entries: seq<Entry>) {
    forall e :: e in entries ==> GoodKey(e.key) && OneLine(e.value)
  }

  function Returned(entries: seq<Entry>, values: map<string, string>): map<string, string> {
    if entries == [] then values
    else Returned(entries[1..], values[entries[0].key := Unquote(Strip(entries[0].value))])
  }

  lemma {:induction false} FoldPrinted(entries: seq<Entry>, values: map<string, string>)
    requires Printable(entries)
    ensures Fold(SplitLines(Print(entries)), values) == Returned(entries, values)
    decreases |entries|
  {
    if entries != [] {
      var e := entries[0];
      var line := e.key + "=" + e.value;
      SplitAtBreak(line, '\n', Print(entries[1..]));
      assert Print(entries) == line + "\n" + Print(entries[1..]);
      var lines := SplitLines(Print(entries));
      assert lines[0] == line && lines[1..] == SplitLines(Print(entries[1..]));
      EntryComesBack(e.key, e.value);
      FoldPrinted(entries[1..], Enter(values, line));
    }
  }

  /** A value that survives: one line, no blanks around it, no quotes around it. */
  predicate Plain(v: string) {
    OneLine(v) && Trimmed(v) && !Quoted(v)
  }

  lemma PlainIsKept(v: string)
    requires OneLine(v)
    ensures Unquote(Strip(v)) == v <==> Plain(v)
  {
    StripTrims(v);
  }

  predicate OneLineValues(values: map<string, string>) {
    forall k :: k in values ==> OneLine(values[k])
  }

  lemma {:induction false} FoldIsOneLine(lines: seq<string>, values: map<string, string>)
    requires OneLineValues(values) && forall l :: l in lines ==> OneLine(l)
    ensures OneLineValues(Fold(lines, values))
    decreases |lines|
  {
    if lines != [] {
      EntryIsOneLine(lines[0]);
      FoldIsOneLine(lines[1..], Enter(values, lines[0]));
    }
  }

  lemma EntryIsOneLine(raw: string)
    requires OneLine(raw)
    ensures ParseLine(raw).Some? ==> OneLine(ParseLine(raw).value.value)
  {
    var line := Strip(raw);
    StripTrims(raw);
    if '=' in line {
      var tail := line[Find('=', line) + 1..];
      StripTrims(tail);
      assert forall c :: c in tail ==> c in line;
      assert OneLine(Strip(tail));
      assert Quoted(Strip(tail)) ==> forall c :: c in Unquote(Strip(tail)) ==> c in Strip(tail);
    }
  }

  /** No text makes the parser yield a value with a line break. */
  lemma ParsedIsOneLine(text: string)
    ensures OneLineValues(Parse(text))
  {
    LinesHaveNoBreaks(text);
    FoldIsOneLine(SplitLines(text), map[]);
  }
}
