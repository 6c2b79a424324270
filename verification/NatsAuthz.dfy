/** The NATS authorization text of `pkg/exoskeleton/registrar_nats.go`: a printer that sorts
    and quotes entries, and the line-oriented parser that reads them back. */
module NatsAuthz {
  import opened Wrappers
  import opened Text
  import opened Sorting

  datatype Entry = Entry(user: string, publishAllow: seq<string>, subscribeAllow: seq<string>)

  const QUOTES: set<char> := {'"'}

  function UserOf(e: Entry): string { e.user }

  // ----- quoting: the verb %q -----

  function HexDigit(n: nat): char
    requires n < 16
  {
    "0123456789abcdef"[n]
  }

  /** A character %q prints as it is. */
  predicate PlainChar(c: char) {
    ' ' <= c && c != '"' && c != '\\' && c != '\U{7F}'
  }

  function EscapeChar(c: char): string {
    if PlainChar(c) then [c]
    else if c == '"' || c == '\\' then ['\\', c]
    else if c == '\U{07}' then "\\a"
    else if c == '\U{08}' then "\\b"
    else if c == '\U{0C}' then "\\f"
    else if c == '\n' then "\\n"
    else if c == '\r' then "\\r"
    else if c == '\t' then "\\t"
    else if c == '\U{0B}' then "\\v"
    else ['\\', 'x', HexDigit(c as int / 16), HexDigit(c as int % 16)]
  }

  function Escape(s: string): string {
    if s == [] then [] else EscapeChar(s[0]) + Escape(s[1..])
  }

  function Quote(s: string): string {
    "\"" + Escape(s) + "\""
  }

  predicate Plain(s: string) {
    forall c <- s :: PlainChar(c)
  }

  function QuoteAll(ss: seq<string>): seq<string> {
    if ss == [] then [] else [Quote(ss[0])] + QuoteAll(ss[1..])
  }

  function QuoteSubjects(ss: seq<string>): string {
    Join(QuoteAll(ss), ", ")
  }

  // ----- printing -----

  /** A line body behind `n` spaces. */
  function Line(n: nat, body: string): string {
    seq(n, i => ' ') + body
  }

  function Terminated(lines: seq<string>): string {
    if lines == [] then [] else lines[0] + "\n" + Terminated(lines[1..])
  }

  function UserBody(user: string): string {
    "user = " + Quote(user)
  }

  function AllowBody(ss: seq<string>): string {
    "allow = [" + QuoteSubjects(ss) + "]"
  }

  /** The lines of an entry but the last, which the printer leaves open for a comma. */
  function EntryLines(e: Entry): seq<string> {
    [Line(4, "{"),
     Line(6, UserBody(e.user)),
     Line(6, "permissions = {"),
     Line(8, "publish = {"),
     Line(10, AllowBody(e.publishAllow)),
     Line(8, "}"),
     Line(8, "subscribe = {"),
     Line(10, AllowBody(e.subscribeAllow)),
     Line(8, "}"),
     Line(6, "}")]
  }

  function EntryText(e: Entry): string {
    Terminated(EntryLines(e)) + Line(4, "}")
  }

  const HEAD: seq<string> := ["authorization {", Line(2, "users = [")]
  const FOOT: seq<string> := [Line(2, "]"), "}"]

  function RenderFrom(es: seq<Entry>): string {
    if es == [] then "\n" + Terminated(FOOT)
    else EntryText(es[0]) + (if |es| > 1 then ",\n" else "") + RenderFrom(es[1..])
  }

  /** The text of a list of entries. */
  function Render(es: seq<Entry>): string {
    Terminated(HEAD) + RenderFrom(SortBy(UserOf, es))
  }

  /** `renderAuthzConfig`: sorts the entries, then appends them to a builder one by one. */
  method RenderAuthzConfig(entries: seq<Entry>) returns (text: string)
    ensures text == Render(entries)
  {
    hide EntryText, Terminated, SortBy;
    var es := SortBy(UserOf, entries);
    text := Terminated(HEAD);
    for i := 0 to |es|
      invariant text + Rest(es, i) == Terminated(HEAD) + RenderFrom(es)
    {
      RestUnfold(es, i);
      ghost var before := text;
      if i > 0 {
        text := text + ",\n";
      }
      text := text + EntryText(es[i]);
      assert text + Rest(es, i + 1) == before + Rest(es, i);
    }
    text := text + "\n" + Terminated(FOOT);
  }

  /** What is still to be printed before entry `i`. */
  function Rest(es: seq<Entry>, i: nat): string
    requires i <= |es|
  {
    (if 0 < i < |es| then ",\n" else "") + RenderFrom(es[i..])
  }

  lemma RestUnfold(es: seq<Entry>, i: nat)
    requires i < |es|
    ensures Rest(es, i) == (if i > 0 then ",\n" else "") + EntryText(es[i]) + Rest(es, i + 1)
  {
    hide EntryText, Terminated;
    assert es[i..][0] == es[i] && es[i..][1..] == es[i + 1..];
  }

  // ----- parsing -----

  function Index(s: string, c: char): (i: int)
    ensures -1 <= i < |s|
    ensures i >= 0 ==> s[i] == c
  {
    if s == [] then -1
    else if s[0] == c then 0
    else
      var i := Index(s[1..], c);
      if i < 0 then -1 else i + 1
  }

  function LastIndex(s: string, c: char): (i: int)
    ensures -1 <= i < |s|
    ensures i >= 0 ==> s[i] == c
  {
    if s == [] then -1
    else if s[|s| - 1] == c then |s| - 1
    else LastIndex(s[..|s| - 1], c)
  }

  function Unquote(p: string): string {
    Trim(TrimSpace(p), QUOTES)
  }

  function KeepSubjects(parts: seq<string>): seq<string> {
    if parts == [] then []
    else (if Unquote(parts[0]) != "" then [Unquote(parts[0])] else []) + KeepSubjects(parts[1..])
  }

  function ParseAllow(line: string): seq<string> {
    var start := Index(line, '[');
    var end := LastIndex(line, ']');
    if start < 0 || end < 0 || end <= start then []
    else KeepSubjects(Split(line[start + 1..end], ','))
  }

  datatype Scan = Scan(entries: seq<Entry>, current: Option<Entry>, inPublish: bool, inSubscribe: bool)

  function Flush(st: Scan): seq<Entry> {
    st.entries + if st.current.Some? then [st.current.value] else []
  }

  function ScanLine(st: Scan, line: string): Scan {
    var t := TrimSpace(line);
    if "user = " <= t then
      Scan(Flush(st), Some(Entry(Trim(t[7..], QUOTES), [], [])), false, false)
    else if st.current.None? then st
    else if "publish" <= t && '{' in t then st.(inPublish := true, inSubscribe := false)
    else if "subscribe" <= t && '{' in t then st.(inPublish := false, inSubscribe := true)
    else if "allow = [" <= t then
      if st.inPublish then st.(current := Some(st.current.value.(publishAllow := ParseAllow(t))))
      else if st.inSubscribe then st.(current := Some(st.current.value.(subscribeAllow := ParseAllow(t))))
      else st
    else if t == "}" then st.(inPublish := false, inSubscribe := false)
    else st
  }

  function ScanLines(st: Scan, lines: seq<string>): Scan
    decreases lines
  {
    if lines == [] then st else ScanLines(ScanLine(st, lines[0]), lines[1..])
  }

  const START := Scan([], None, false, false)

  /** The entries a text denotes. */
  function Parse(conf: string): seq<Entry> {
    Flush(ScanLines(START, Split(conf, '\n')))
  }

  lemma {:induction false} KeepSubjectsSnoc(parts: seq<string>, p: string)
    ensures KeepSubjects(parts + [p]) == KeepSubjects(parts) + if Unquote(p) != "" then [Unquote(p)] else []
  {
    if parts != [] {
      assert (parts + [p])[1..] == parts[1..] + [p];
      KeepSubjectsSnoc(parts[1..], p);
    }
  }

  method ParseAllowList(line: string) returns (result: seq<string>)
    ensures result == ParseAllow(line)
  {
    var start := Index(line, '[');
    var end := LastIndex(line, ']');
    result := [];
    if start < 0 || end < 0 || end <= start {
      return;
    }
    var parts := Split(line[start + 1..end], ',');
    for i := 0 to |parts|
      invariant result == KeepSubjects(parts[..i])
    {
      assert parts[..i + 1] == parts[..i] + [parts[i]];
      KeepSubjectsSnoc(parts[..i], parts[i]);
      var p := TrimSpace(parts[i]);
      p := Trim(p, QUOTES);
      if p != "" {
        result := result + [p];
      }
    }
    assert parts[..|parts|] == parts;
  }

  /** `parseAuthzConfig`: one pass over the lines, keeping the entry and the block being read. */
  method ParseAuthzConfig(conf: string) returns (entries: seq<Entry>)
    ensures entries == Parse(conf)
  {
    entries := [];
    if conf == "" {
      return;
    }
    var lines := Split(conf, '\n');
    var current: Option<Entry> := None;
    var inPublish, inSubscribe := false, false;
    for i := 0 to |lines|
      invariant ScanLines(START, lines) == ScanLines(Scan(entries, current, inPublish, inSubscribe), lines[i..])
    {
      ghost var st := Scan(entries, current, inPublish, inSubscribe);
      assert lines[i..][0] == lines[i] && lines[i..][1..] == lines[i + 1..];
      var trimmed := TrimSpace(lines[i]);
      if "user = " <= trimmed {
        if current.Some? {
          entries := entries + [current.value];
        }
        var user := Trim(trimmed[7..], QUOTES);
        current := Some(Entry(user, [], []));
        inPublish, inSubscribe := false, false;
      } else if current.Some? {
        if "publish" <= trimmed && '{' in trimmed {
          inPublish, inSubscribe := true, false;
        } else if "subscribe" <= trimmed && '{' in trimmed {
          inPublish, inSubscribe := false, true;
        } else if "allow = [" <= trimmed {
          var subjects := ParseAllowList(trimmed);
          if inPublish {
            current := Some(current.value.(publishAllow := subjects));
          } else if inSubscribe {
            current := Some(current.value.(subscribeAllow := subjects));
          }
        } else if trimmed == "}" {
          inPublish, inSubscribe := false, false;
        }
      }
      assert Scan(entries, current, inPublish, inSubscribe) == ScanLine(st, lines[i]);
    }
    if current.Some? {
      entries := entries + [current.value];
    }
  }
}
