/** Parsing what was printed: the entries come back sorted by user, exactly when their
    names need no escaping and their subjects can be listed between commas. */
module NatsRoundTrip {
  import opened Wrappers
  import opened Text
  import opened Sorting
  import opened NatsAuthz

  /** A subject that survives a comma-separated, quoted list. */
  predicate CleanSubject(s: string) {
    Plain(s) && s != "" && ',' !in s
  }

  predicate CleanEntry(e: Entry) {
    && Plain(e.user)
    && (forall s <- e.publishAllow :: CleanSubject(s))
    && (forall s <- e.subscribeAllow :: CleanSubject(s))
  }

  /** What becomes of an entry that is printed and parsed. */
  function Reparse(e: Entry): Entry {
    Entry(Trim(Quote(e.user), QUOTES), ReparseSubjects(e.publishAllow), ReparseSubjects(e.subscribeAllow))
  }

  function ReparseSubjects(ss: seq<string>): seq<string> {
    KeepSubjects(Split(QuoteSubjects(ss), ','))
  }

  function ReparseAll(es: seq<Entry>): seq<Entry> {
    if es == [] then [] else [Reparse(es[0])] + ReparseAll(es[1..])
  }

  // ----- backslashes tell escaped text from plain text -----

  function Backslashes(s: string): nat {
    if s == [] then 0 else (if s[0] == '\\' then 1 else 0) + Backslashes(s[1..])
  }

  lemma {:induction false} BackslashesConcat(a: string, b: string)
    ensures Backslashes(a + b) == Backslashes(a) + Backslashes(b)
  {
    if a == [] {
      assert a + b == b;
    } else {
      assert (a + b)[1..] == a[1..] + b;
      BackslashesConcat(a[1..], b);
    }
  }

  lemma {:induction false} BackslashesNone(s: string)
    requires '\\' !in s
    ensures Backslashes(s) == 0
  {
    if s != [] {
      BackslashesNone(s[1..]);
    }
  }

  lemma BackslashesTrim(s: string, cut: set<char>)
    requires '\\' !in cut
    ensures Backslashes(Trim(s, cut)) == Backslashes(s)
  {
    var a, b := TrimCuts(s, cut);
    BackslashesNone(a);
    BackslashesNone(b);
    BackslashesConcat(a, Trim(s, cut));
    BackslashesConcat(a + Trim(s, cut), b);
  }

  lemma EscapeCharBackslashes(c: char)
    ensures Backslashes(EscapeChar(c)) >= Backslashes([c])
    ensures Backslashes(EscapeChar(c)) == Backslashes([c]) <==> PlainChar(c)
  {
    var e := EscapeChar(c);
    assert Backslashes(e) == (if e[0] == '\\' then 1 else 0) + Backslashes(e[1..]);
    if |e| > 1 {
      assert Backslashes(e[1..]) == (if e[1] == '\\' then 1 else 0) + Backslashes(e[1..][1..]);
    }
  }

  lemma {:induction false} EscapeBackslashes(s: string)
    ensures Backslashes(Escape(s)) >= Backslashes(s)
    ensures Backslashes(Escape(s)) == Backslashes(s) <==> Plain(s)
    ensures Plain(s) ==> Escape(s) == s
  {
    if s != [] {
      assert s == [s[0]] + s[1..];
      EscapeCharBackslashes(s[0]);
      EscapeBackslashes(s[1..]);
      BackslashesConcat(EscapeChar(s[0]), Escape(s[1..]));
      BackslashesConcat([s[0]], s[1..]);
    }
  }

  lemma QuoteBackslashes(s: string)
    ensures Backslashes(Quote(s)) == Backslashes(Escape(s))
  {
    BackslashesConcat("\"" + Escape(s), "\"");
    BackslashesConcat("\"", Escape(s));
    BackslashesNone("\"");
  }

  lemma QuoteEnds(s: string)
    ensures Snug(Quote(s), SPACE) && Quote(s) != ""
    ensures '\n' !in Quote(s)
  {
    EscapeNoNewline(s);
  }

  lemma {:induction false} EscapeNoNewline(s: string)
    ensures '\n' !in Escape(s)
  {
    if s != [] {
      EscapeNoNewline(s[1..]);
    }
  }

  lemma QuotePlain(s: string)
    requires Plain(s)
    ensures Quote(s) == "\"" + s + "\""
    ensures Trim(Quote(s), QUOTES) == s
  {
    EscapeBackslashes(s);
    if s == [] {
      assert Quote(s) == ['"', '"'];
      assert TrimLeft(['"', '"'], QUOTES) == TrimLeft(['"'], QUOTES) == [];
    } else {
      assert PlainChar(s[0]) && PlainChar(s[|s| - 1]);
      TrimMargins("\"", s, "\"", QUOTES);
    }
  }

  /** A user name comes back from its quoted form exactly when it is plain. */
  lemma UserRoundTrip(u: string)
    ensures Trim(Quote(u), QUOTES) == u <==> Plain(u)
  {
    if Plain(u) {
      QuotePlain(u);
    }
    BackslashesTrim(Quote(u), QUOTES);
    QuoteBackslashes(u);
    EscapeBackslashes(u);
  }

  // ----- subject lists -----

  function TotalBackslashes(ss: seq<string>): nat {
    if ss == [] then 0 else Backslashes(ss[0]) + TotalBackslashes(ss[1..])
  }

  lemma {:induction false} SplitBackslashes(s: string)
    ensures TotalBackslashes(Split(s, ',')) == Backslashes(s)
  {
    if s != [] {
      SplitBackslashes(s[1..]);
      var r := Split(s[1..], ',');
      if s[0] != ',' {
        BackslashesConcat([s[0]], r[0]);
        assert ([[s[0]] + r[0]] + r[1..])[1..] == r[1..];
      } else {
        assert ([[]] + r)[1..] == r;
      }
    }
  }

  lemma {:induction false} KeepBackslashes(parts: seq<string>)
    requires forall p <- parts :: ',' !in p
    ensures TotalBackslashes(KeepSubjects(parts)) == TotalBackslashes(parts)
    ensures forall s <- KeepSubjects(parts) :: s != "" && ',' !in s
  {
    if parts != [] {
      var p := parts[0];
      BackslashesTrim(p, SPACE);
      BackslashesTrim(TrimSpace(p), QUOTES);
      UnquoteNoComma(p);
      KeepBackslashes(parts[1..]);
      assert ([Unquote(p)] + KeepSubjects(parts[1..]))[1..] == KeepSubjects(parts[1..]);
      assert [] + KeepSubjects(parts[1..]) == KeepSubjects(parts[1..]);
    }
  }

  lemma UnquoteNoComma(p: string)
    requires ',' !in p
    ensures ',' !in Unquote(p)
  {
    var a, b := TrimCuts(p, SPACE);
    var t := TrimSpace(p);
    assert forall i :: 0 <= i < |t| ==> t[i] in p;
    var c, d := TrimCuts(t, QUOTES);
    assert forall i :: 0 <= i < |Unquote(p)| ==> Unquote(p)[i] in t;
  }

  lemma {:induction false} JoinedBackslashes(ss: seq<string>)
    ensures Backslashes(QuoteSubjects(ss)) >= TotalBackslashes(ss)
    ensures Backslashes(QuoteSubjects(ss)) == TotalBackslashes(ss) <==> forall s <- ss :: Plain(s)
  {
    if ss != [] {
      QuoteBackslashes(ss[0]);
      EscapeBackslashes(ss[0]);
      JoinedBackslashes(ss[1..]);
      assert ss == [ss[0]] + ss[1..];
      assert QuoteAll(ss)[0] == Quote(ss[0]) && QuoteAll(ss)[1..] == QuoteAll(ss[1..]);
      if |ss| > 1 {
        BackslashesConcat(Quote(ss[0]) + ", ", QuoteSubjects(ss[1..]));
        BackslashesConcat(Quote(ss[0]), ", ");
        BackslashesNone(", ");
      } else {
        assert QuoteAll(ss) == [Quote(ss[0])];
      }
    }
  }

  lemma UnquoteSpaced(s: string)
    requires CleanSubject(s)
    ensures Unquote(Quote(s)) == s && Unquote(" " + Quote(s)) == s
  {
    QuotePlain(s);
    QuoteEnds(s);
    TrimSnug(Quote(s), SPACE);
    TrimMargins(" ", Quote(s), "", SPACE);
    assert " " + Quote(s) + "" == " " + Quote(s);
  }

  lemma QuoteSubjectsUnfold(ss: seq<string>)
    requires ss != []
    ensures |ss| == 1 ==> QuoteSubjects(ss) == Quote(ss[0])
    ensures |ss| > 1 ==> QuoteSubjects(ss) == Quote(ss[0]) + [','] + (" " + QuoteSubjects(ss[1..]))
  {
    hide Quote, QuoteAll, Join;
    QuoteAllUnfold(ss);
    JoinUnfold(QuoteAll(ss), QuoteSubjects(ss[1..]));
  }

  lemma QuoteAllUnfold(ss: seq<string>)
    requires ss != []
    ensures |QuoteAll(ss)| == |ss| && QuoteAll(ss)[0] == Quote(ss[0]) && QuoteAll(ss)[1..] == QuoteAll(ss[1..])
  {
    hide Quote;
    QuoteAllLength(ss[1..]);
  }

  lemma {:induction false} QuoteAllLength(ss: seq<string>)
    ensures |QuoteAll(ss)| == |ss|
  {
    hide Quote;
    if ss != [] { QuoteAllLength(ss[1..]); }
  }

  lemma JoinUnfold(parts: seq<string>, rest: string)
    requires parts != [] && rest == Join(parts[1..], ", ")
    ensures |parts| == 1 ==> Join(parts, ", ") == parts[0]
    ensures |parts| > 1 ==> Join(parts, ", ") == parts[0] + [','] + (" " + rest)
  {
    hide Join;
    JoinStep(parts, ", ");
    if |parts| > 1 { CommaSpace(parts[0], rest); }
  }

  lemma JoinStep(parts: seq<string>, sep: string)
    requires parts != []
    ensures Join(parts, sep) == if |parts| == 1 then parts[0] else parts[0] + sep + Join(parts[1..], sep)
  {
  }

  lemma CommaSpace(a: string, r: string)
    ensures a + ", " + r == a + [','] + (" " + r)
  {
    assert ", " == [','] + " ";
  }

  lemma CleanQuote(s: string, pad: string)
    requires CleanSubject(s) && (pad == "" || pad == " ")
    ensures Unquote(pad + Quote(s)) == s && ',' !in pad + Quote(s)
  {
    hide Unquote;
    UnquoteSpaced(s);
    QuotePlain(s);
    assert "" + Quote(s) == Quote(s);
  }

  /** Behind any leading space, a list of clean subjects is read back as it was. */
  lemma {:induction false} CleanSubjectsBack(ss: seq<string>, pad: string)
    requires forall s <- ss :: CleanSubject(s)
    requires ss != [] && (pad == "" || pad == " ")
    ensures KeepSubjects(Split(pad + QuoteSubjects(ss), ',')) == ss
  {
    hide Unquote, Quote, CleanSubject, QuoteSubjects, Split;
    var s := ss[0];
    var q := pad + Quote(s);
    CleanQuote(s, pad);
    CleanNotEmpty(s);
    QuoteSubjectsUnfold(ss);
    if |ss| == 1 {
      SplitOne(q, ',');
      assert KeepSubjects([q]) == [s] + KeepSubjects([]);
      assert ss == [s];
    } else {
      CleanSubjectsBack(ss[1..], " ");
      var rest := " " + QuoteSubjects(ss[1..]);
      assert pad + QuoteSubjects(ss) == q + [','] + rest;
      SplitCons(q, rest, ',');
      assert ([q] + Split(rest, ','))[1..] == Split(rest, ',');
      assert ss == [s] + ss[1..];
    }
  }

  lemma CleanNotEmpty(s: string)
    ensures CleanSubject(s) ==> s != ""
  {
  }

  /** A subject list comes back exactly when every subject is clean. */
  lemma SubjectsRoundTrip(ss: seq<string>)
    ensures ReparseSubjects(ss) == ss <==> forall s <- ss :: CleanSubject(s)
  {
    var parts := Split(QuoteSubjects(ss), ',');
    SplitPartsFree(QuoteSubjects(ss), ',');
    SplitBackslashes(QuoteSubjects(ss));
    KeepBackslashes(parts);
    JoinedBackslashes(ss);
    if forall s <- ss :: CleanSubject(s) {
      if ss == [] {
        assert parts == [""];
        assert Unquote("") == "";
        assert KeepSubjects([""]) == [] + KeepSubjects([]);
      } else {
        assert "" + QuoteSubjects(ss) == QuoteSubjects(ss);
        CleanSubjectsBack(ss, "");
      }
    }
  }

  lemma EntryRoundTrip(e: Entry)
    ensures Reparse(e) == e <==> CleanEntry(e)
  {
    hide ReparseSubjects, CleanSubject, Quote, Trim, Plain;
    UserRoundTrip(e.user);
    SubjectsRoundTrip(e.publishAllow);
    SubjectsRoundTrip(e.subscribeAllow);
  }

  // ----- lines -----

  lemma {:induction false} SplitTerminated(lines: seq<string>, rest: string)
    requires forall l <- lines :: '\n' !in l
    ensures Split(Terminated(lines) + rest, '\n') == lines + Split(rest, '\n')
  {
    hide Split;
    if lines == [] {
      assert Terminated(lines) + rest == rest;
    } else {
      SplitTerminated(lines[1..], rest);
      SplitCons(lines[0], Terminated(lines[1..]) + rest, '\n');
      TerminatedHead(lines, rest);
      assert lines == [lines[0]] + lines[1..];
    }
  }

  lemma TerminatedHead(lines: seq<string>, rest: string)
    requires lines != []
    ensures Terminated(lines) + rest == lines[0] + ['\n'] + (Terminated(lines[1..]) + rest)
  {
    var tail := Terminated(lines[1..]);
    assert Terminated(lines) == lines[0] + "\n" + tail;
  }

  lemma {:induction false} ScanConcat(st: Scan, a: seq<string>, b: seq<string>)
    ensures ScanLines(st, a + b) == ScanLines(ScanLines(st, a), b)
    decreases a
  {
    if a == [] {
      assert a + b == b;
    } else {
      assert (a + b)[0] == a[0] && (a + b)[1..] == a[1..] + b;
      ScanConcat(ScanLine(st, a[0]), a[1..], b);
    }
  }

  lemma TrimLine(n: nat, body: string)
    requires body != "" && Snug(body, SPACE)
    ensures TrimSpace(Line(n, body)) == body
  {
    TrimMargins(seq(n, i => ' '), body, "", SPACE);
    assert Line(n, body) == seq(n, i => ' ') + body + "";
  }

  lemma ScanUser(st: Scan, u: string)
    ensures ScanLine(st, Line(6, UserBody(u))) ==
              Scan(Flush(st), Some(Entry(Trim(Quote(u), QUOTES), [], [])), false, false)
  {
    hide Trim, Escape;
    QuoteEnds(u);
    var body := UserBody(u);
    TrimLine(6, body);
    assert body[7..] == Quote(u);
  }

  lemma AllowParsed(ss: seq<string>)
    ensures ParseAllow(AllowBody(ss)) == ReparseSubjects(ss)
  {
    hide QuoteSubjects, KeepSubjects, Split;
    var body := AllowBody(ss);
    var head := "allow = ";
    assert body == head + ['['] + (QuoteSubjects(ss) + "]");
    IndexAfter(head, '[', QuoteSubjects(ss) + "]");
    assert body[|body| - 1] == ']';
    assert body[9..|body| - 1] == QuoteSubjects(ss);
  }

  lemma {:induction false} IndexAfter(a: string, c: char, b: string)
    requires c !in a
    ensures Index(a + [c] + b, c) == |a|
  {
    if a != [] {
      assert (a + [c] + b)[1..] == a[1..] + [c] + b;
      IndexAfter(a[1..], c, b);
    }
  }

  lemma ScanAllow(st: Scan, ss: seq<string>)
    requires st.current.Some?
    ensures ScanLine(st, Line(10, AllowBody(ss))) ==
            if st.inPublish then st.(current := Some(st.current.value.(publishAllow := ReparseSubjects(ss))))
            else if st.inSubscribe then st.(current := Some(st.current.value.(subscribeAllow := ReparseSubjects(ss))))
            else st
  {
    hide QuoteSubjects, ParseAllow, ReparseSubjects;
    var body := AllowBody(ss);
    assert body[0] == 'a' && body[|body| - 1] == ']';
    TrimLine(10, body);
    AllowParsed(ss);
    assert "allow = [" <= body;
    assert "user = "[0] == 'u' && "publish"[0] == 'p' && "subscribe"[0] == 's';
  }

  lemma ScanBlock(st: Scan, kind: string)
    requires st.current.Some? && (kind == "publish" || kind == "subscribe")
    ensures ScanLine(st, Line(8, kind + " = {")) ==
              st.(inPublish := kind == "publish", inSubscribe := kind != "publish")
  {
    var body := kind + " = {";
    TrimLine(8, body);
    assert body[|body| - 1] == '{';
    assert kind <= body;
    assert body[0] == kind[0];
    assert "user = "[0] == 'u' && "publish"[0] == 'p' && "subscribe"[0] == 's';
  }

  /** Lines that change nothing inside an entry. */
  lemma ScanFiller(st: Scan, n: nat, body: string)
    requires body in {"{", "permissions = {", "},", "]"}
    ensures ScanLine(st, Line(n, body)) == st
  {
    TrimLine(n, body);
    assert "user = "[0] == 'u' && "publish"[0] == 'p' && "subscribe"[0] == 's' && "allow = ["[0] == 'a';
    if body == "permissions = {" {
      assert body[1] == 'e' && "publish"[1] == 'u';
    }
  }

  lemma ScanClose(st: Scan, n: nat)
    ensures ScanLine(st, Line(n, "}")) ==
            if st.current.Some? then st.(inPublish := false, inSubscribe := false) else st
  {
    TrimLine(n, "}");
    assert "user = "[0] == 'u' && "publish"[0] == 'p' && "subscribe"[0] == 's' && "allow = ["[0] == 'a';
  }

  /** The lines of one entry make it the current entry, whatever came before. */
  lemma ScanEntry(st: Scan, e: Entry)
    ensures ScanLines(st, EntryLines(e)) == Scan(Flush(st), Some(Reparse(e)), false, false)
  {
    hide ScanLine, ScanLines, Line, UserBody, AllowBody, ReparseSubjects, Trim, Quote;
    var ls := EntryLines(e);
    ScanFiller(st, 4, "{");
    ScanUser(st, e.user);
    var s1 := Scan(Flush(st), Some(Entry(Trim(Quote(e.user), QUOTES), [], [])), false, false);
    ScanFiller(s1, 6, "permissions = {");
    ScanBlock(s1, "publish");
    assert "publish" + " = {" == "publish = {" && "subscribe" + " = {" == "subscribe = {";
    var s2 := s1.(inPublish := true);
    ScanAllow(s2, e.publishAllow);
    var s3 := s2.(current := Some(s2.current.value.(publishAllow := ReparseSubjects(e.publishAllow))));
    ScanClose(s3, 8);
    var s4 := s3.(inPublish := false);
    ScanBlock(s4, "subscribe");
    var s5 := s4.(inSubscribe := true);
    ScanAllow(s5, e.subscribeAllow);
    var s6 := s5.(current := Some(s5.current.value.(subscribeAllow := ReparseSubjects(e.subscribeAllow))));
    ScanClose(s6, 8);
    var s7 := s6.(inSubscribe := false);
    ScanClose(s7, 6);
    assert s7 == Scan(Flush(st), Some(Reparse(e)), false, false);
    ScanTen(st, ls);
  }

  lemma ScanTen(st: Scan, ls: seq<string>)
    requires |ls| == 10
    ensures var half := ScanLine(ScanLine(ScanLine(ScanLine(ScanLine(st, ls[0]), ls[1]), ls[2]), ls[3]), ls[4]);
            ScanLines(st, ls) ==
            ScanLine(ScanLine(ScanLine(ScanLine(ScanLine(half, ls[5]), ls[6]), ls[7]), ls[8]), ls[9])
  {
    hide ScanLine;
    ScanFive(st, ls, 0);
    ScanFive(ScanLine(ScanLine(ScanLine(ScanLine(ScanLine(st, ls[0]), ls[1]), ls[2]), ls[3]), ls[4]), ls, 5);
    assert ls[0..] == ls && ls[10..] == [];
  }

  lemma ScanFive(st: Scan, ls: seq<string>, i: nat)
    requires i + 5 <= |ls|
    ensures ScanLines(st, ls[i..]) ==
            ScanLines(ScanLine(ScanLine(ScanLine(ScanLine(ScanLine(st, ls[i]), ls[i + 1]), ls[i + 2]), ls[i + 3]),
                ls[i + 4]), ls[i + 5..])
  {
    hide ScanLine, ScanLines;
    ScanOne(st, ls, i);
    var s1 := ScanLine(st, ls[i]);
    ScanOne(s1, ls, i + 1);
    var s2 := ScanLine(s1, ls[i + 1]);
    ScanOne(s2, ls, i + 2);
    var s3 := ScanLine(s2, ls[i + 2]);
    ScanOne(s3, ls, i + 3);
    ScanOne(ScanLine(s3, ls[i + 3]), ls, i + 4);
  }

  lemma ScanOne(st: Scan, ls: seq<string>, i: nat)
    requires i < |ls|
    ensures ScanLines(st, ls[i..]) == ScanLines(ScanLine(st, ls[i]), ls[i + 1..])
  {
    hide ScanLine;
    assert ls[i..][1..] == ls[i + 1..];
  }

  lemma EntryLinesClean(e: Entry)
    ensures forall l <- EntryLines(e) :: '\n' !in l
  {
    hide Quote, QuoteSubjects;
    QuoteEnds(e.user);
    QuoteSubjectsClean(e.publishAllow);
    QuoteSubjectsClean(e.subscribeAllow);
  }

  lemma {:induction false} QuoteSubjectsClean(ss: seq<string>)
    ensures '\n' !in QuoteSubjects(ss)
  {
    if ss != [] {
      QuoteEnds(ss[0]);
      QuoteSubjectsClean(ss[1..]);
      QuoteSubjectsUnfold(ss);
    }
  }

  // ----- whole texts -----

  lemma FootLines()
    ensures Split(Terminated(FOOT), '\n') == FOOT + [""]
  {
    SplitTerminated(FOOT, "");
    assert Terminated(FOOT) + "" == Terminated(FOOT);
    SplitOne("", '\n');
  }

  lemma ScanFoot(st: Scan)
    ensures Flush(ScanLines(st, Split(Terminated(FOOT), '\n'))) == Flush(st)
  {
    hide ScanLine, Split, Terminated;
    FootLines();
    var ls := FOOT + [""];
    ScanFiller(st, 2, "]");
    ScanClose(st, 0);
    assert Line(0, "}") == "}";
    var s1 := ScanLine(st, "}");
    ScanBlank(s1);
    ScanOne(st, ls, 0);
    ScanOne(ScanLine(st, ls[0]), ls, 1);
    assert ls[0..] == ls && ls[2..] == [""];
    assert ScanLines(s1, [""]) == ScanLines(ScanLine(s1, ""), []);
  }

  /** How the text of an entry list continues after its first entry. */
  lemma RenderFromLines(es: seq<Entry>)
    ensures es == [] ==> Split(RenderFrom(es), '\n') == [""] + Split(Terminated(FOOT), '\n')
    ensures |es| == 1 ==>
              Split(RenderFrom(es), '\n') == EntryLines(es[0]) + ([Line(4, "}")] + Split(Terminated(FOOT), '\n'))
    ensures |es| > 1 ==>
              Split(RenderFrom(es), '\n') == EntryLines(es[0]) + ([Line(4, "},")] + Split(RenderFrom(es[1..]), '\n'))
  {
    hide Split, Terminated, EntryLines, RenderFrom, Line;
    RenderFromText(es);
    if es == [] {
      SplitCons("", Terminated(FOOT), '\n');
    } else if |es| == 1 {
      SplitEntry(es[0], Line(4, "}"), Terminated(FOOT));
    } else {
      SplitEntry(es[0], Line(4, "},"), RenderFrom(es[1..]));
    }
  }

  lemma RenderUnfold(es: seq<Entry>)
    ensures es == [] ==> RenderFrom(es) == "" + ['\n'] + Terminated(FOOT)
    ensures es != [] ==>
              RenderFrom(es) == Terminated(EntryLines(es[0])) + Line(4, "}") + (if |es| > 1 then ",\n" else "") +
                  RenderFrom(es[1..])
  {
    hide Terminated, EntryLines, Line;
  }

  lemma RenderFromText(es: seq<Entry>)
    ensures es == [] ==> RenderFrom(es) == "" + ['\n'] + Terminated(FOOT)
    ensures |es| == 1 ==> RenderFrom(es) == Terminated(EntryLines(es[0])) + (Line(4, "}") + ['\n'] + Terminated(FOOT))
    ensures |es| > 1 ==>
              RenderFrom(es) == Terminated(EntryLines(es[0])) + (Line(4, "},") + ['\n'] + RenderFrom(es[1..]))
  {
    hide *;
    RenderUnfold(es);
    LineComma();
    if |es| == 1 {
      RenderUnfold(es[1..]);
      Regroup(Terminated(EntryLines(es[0])), Line(4, "}"), ['\n'], Terminated(FOOT));
    } else if |es| > 1 {
      RegroupComma(Terminated(EntryLines(es[0])), Line(4, "}"), ",\n", Line(4, "},"), ['\n'], RenderFrom(es[1..]));
    }
  }

  lemma LineComma()
    ensures Line(4, "}") + ",\n" == Line(4, "},") + ['\n']
  {
  }

  lemma Regroup(a: string, b: string, c: string, d: string)
    ensures a + b + "" + ("" + c + d) == a + (b + c + d)
  {
  }

  lemma RegroupComma(a: string, b: string, comma: string, c: string, n: string, d: string)
    requires b + comma == c + n
    ensures a + b + comma + d == a + (c + n + d)
  {
    assert a + b + comma == a + (b + comma);
  }

  lemma SplitEntry(e: Entry, last: string, next: string)
    requires last == Line(4, "}") || last == Line(4, "},")
    ensures Split(Terminated(EntryLines(e)) + (last + ['\n'] + next), '\n') ==
              EntryLines(e) + ([last] + Split(next, '\n'))
  {
    hide Split, Terminated, EntryLines;
    EntryLinesClean(e);
    SplitTerminated(EntryLines(e), last + ['\n'] + next);
    SplitCons(last, next, '\n');
  }

  /** Whatever was read before, reading the text of `es` adds exactly the reparsed entries. */
  lemma {:induction false} ScanRendered(st: Scan, es: seq<Entry>)
    ensures Flush(ScanLines(st, Split(RenderFrom(es), '\n'))) == Flush(st) + ReparseAll(es)
    decreases |es|
  {
    hide Split, Terminated, EntryLines, RenderFrom, ScanLine, Reparse;
    RenderFromLines(es);
    if es == [] {
      ScanBlank(st);
      ScanFoot(st);
      ScanCons(st, "", Split(Terminated(FOOT), '\n'));
    } else {
      var s1 := Scan(Flush(st), Some(Reparse(es[0])), false, false);
      ScanEntry(st, es[0]);
      if |es| == 1 {
        var tail := Split(Terminated(FOOT), '\n');
        ScanConcat(st, EntryLines(es[0]), [Line(4, "}")] + tail);
        ScanClose(s1, 4);
        ScanCons(s1, Line(4, "}"), tail);
        ScanFoot(s1);
        assert ReparseAll(es) == [Reparse(es[0])] + ReparseAll([]);
      } else {
        var tail := Split(RenderFrom(es[1..]), '\n');
        ScanConcat(st, EntryLines(es[0]), [Line(4, "},")] + tail);
        ScanFiller(s1, 4, "},");
        ScanCons(s1, Line(4, "},"), tail);
        ScanRendered(s1, es[1..]);
      }
    }
  }

  lemma ScanCons(st: Scan, l: string, ls: seq<string>)
    ensures ScanLines(st, [l] + ls) == ScanLines(ScanLine(st, l), ls)
  {
    hide ScanLine;
    assert ([l] + ls)[1..] == ls;
  }

  /** For every list of entries, the printed text parses to the entries sorted by user, each
      as its quoting lets it through. */
  lemma ParseRendered(es: seq<Entry>)
    ensures Parse(Render(es)) == ReparseAll(SortBy(UserOf, es))
  {
    hide Split, Terminated, RenderFrom, ScanLine, Reparse, SortBy;
    HeadLines(RenderFrom(SortBy(UserOf, es)));
    var tail := Split(RenderFrom(SortBy(UserOf, es)), '\n');
    ScanHead();
    ScanConcat(START, HEAD, tail);
    ScanRendered(START, SortBy(UserOf, es));
  }

  lemma HeadLines(rest: string)
    ensures Split(Terminated(HEAD) + rest, '\n') == HEAD + Split(rest, '\n')
  {
    hide Split, Terminated;
    SplitTerminated(HEAD, rest);
  }

  lemma ScanHead()
    ensures ScanLines(START, HEAD) == START
  {
    hide TrimSpace, ScanLine;
    ScanHeadLine(0, "authorization {");
    ScanHeadLine(2, "users = [");
    assert Line(0, "authorization {") == "authorization {";
    ScanOne(START, HEAD, 0);
    ScanOne(START, HEAD, 1);
    assert HEAD[0..] == HEAD && HEAD[2..] == [];
  }

  lemma ScanHeadLine(n: nat, body: string)
    requires body in {"authorization {", "users = ["}
    ensures ScanLine(START, Line(n, body)) == START
  {
    TrimLine(n, body);
    assert "user = "[4] == ' ' && body[4] != ' ';
  }

  lemma {:induction false} ReparseFixed(es: seq<Entry>)
    ensures ReparseAll(es) == es <==> forall e <- es :: CleanEntry(e)
  {
    hide Reparse, CleanEntry;
    if es != [] {
      EntryRoundTrip(es[0]);
      ReparseFixed(es[1..]);
      assert es == [es[0]] + es[1..];
      assert ReparseAll(es)[1..] == ReparseAll(es[1..]);
    }
  }

  /** The round trip holds on exactly the lists whose entries are all clean. */
  lemma AuthzRoundTrip(es: seq<Entry>)
    ensures Parse(Render(es)) == SortBy(UserOf, es) <==> forall e <- es :: CleanEntry(e)
  {
    hide Reparse, CleanEntry, SortBy, Parse, Render;
    ParseRendered(es);
    ReparseFixed(SortBy(UserOf, es));
    SortByMembers(UserOf, es);
  }

  lemma ScanBlank(st: Scan)
    ensures ScanLine(st, "") == st
  {
    assert TrimSpace("") == "";
  }

  // ----- the text itself -----

  /** The text of a registry with one principal, line by line; what is between the quotes of a plain
      name is the name. */
  lemma TextOfOne(user: string, prefix: string)
    requires Plain(user) && Plain(prefix)
    ensures Render([Entry(user, [prefix], [prefix])]) == Terminated([
              "authorization {",
              "  users = [",
              "    {",
              "      user = \"" + user + "\"",
              "      permissions = {",
              "        publish = {",
              "          allow = [\"" + prefix + "\"]",
              "        }",
              "        subscribe = {",
              "          allow = [\"" + prefix + "\"]",
              "        }",
              "      }",
              "    }",
              "  ]",
              "}"])
  {
    hide Terminated, Quote, Line, SortBy;
    var e := Entry(user, [prefix], [prefix]);
    OneSorted(e);
    PlainText(user, prefix);
    Margins();
    var body := [
      "    {", "      user = \"" + user + "\"", "      permissions = {", "        publish = {",
      "          allow = [\"" + prefix + "\"]", "        }", "        subscribe = {",
      "          allow = [\"" + prefix + "\"]", "        }", "      }"];
    EntryBody(user, prefix, body);
    var head, foot := ["authorization {", "  users = ["], ["  ]", "}"];
    TerminatedConcat(body, ["    }"]);
    TerminatedConcat(head, body + ["    }"]);
    TerminatedConcat(head + (body + ["    }"]), foot);
    TerminatedOne("    }");
    OneRendered(e, body);
    var all := head + (body + ["    }"]) + foot;
    assert all == [
              "authorization {",
              "  users = [",
              "    {",
              "      user = \"" + user + "\"",
              "      permissions = {",
              "        publish = {",
              "          allow = [\"" + prefix + "\"]",
              "        }",
              "        subscribe = {",
              "          allow = [\"" + prefix + "\"]",
              "        }",
              "      }",
              "    }",
              "  ]",
              "}"];
    JoinTexts(Terminated(head), Terminated(body), "    }", Terminated(foot));
  }

  lemma JoinTexts(h: string, b: string, last: string, f: string)
    ensures h + (b + last + ("\n" + f)) == h + (b + (last + "\n")) + f
  {
    assert b + last + ("\n" + f) == b + (last + "\n") + f;
  }

  lemma OneSorted(e: Entry)
    ensures SortBy(UserOf, [e]) == [e]
  {
    assert [e][1..] == [];
  }

  lemma OneRendered(e: Entry, body: seq<string>)
    requires EntryLines(e) == body
    ensures RenderFrom([e]) == Terminated(body) + Line(4, "}") + ("\n" + Terminated(FOOT))
  {
    hide Terminated, Line, EntryLines;
    assert [e][1..] == [];
    assert EntryText(e) + "" + RenderFrom([]) == EntryText(e) + RenderFrom([]);
  }

  lemma TerminatedOne(line: string)
    ensures Terminated([line]) == line + "\n"
  {
    assert [line][1..] == [];
  }

  lemma {:induction false} TerminatedConcat(a: seq<string>, b: seq<string>)
    ensures Terminated(a + b) == Terminated(a) + Terminated(b)
  {
    if a == [] {
      assert a + b == b;
    } else {
      assert (a + b)[1..] == a[1..] + b && (a + b)[0] == a[0];
      TerminatedConcat(a[1..], b);
    }
  }

  lemma PlainText(user: string, prefix: string)
    requires Plain(user) && Plain(prefix)
    ensures UserBody(user) == "user = \"" + user + "\""
    ensures AllowBody([prefix]) == "allow = [\"" + prefix + "\"]"
  {
    QuotePlain(user);
    QuotePlain(prefix);
    QuoteSubjectsUnfold([prefix]);
    assert "user = \"" == "user = " + "\"" && "allow = [\"" == "allow = [" + "\"" && "\"]" == "\"" + "]";
    assert "user = " + ("\"" + user + "\"") == "user = \"" + user + "\"";
    assert "allow = [" + ("\"" + prefix + "\"") + "]" == "allow = [\"" + prefix + "\"]";
  }

  lemma Spaces()
    ensures seq(2, i => ' ') == "  " && seq(4, i => ' ') == "    " && seq(6, i => ' ') == "      "
    ensures seq(8, i => ' ') == "        " && seq(10, i => ' ') == "          "
  {
  }

  lemma Margins()
    ensures Line(2, "users = [") == "  users = [" && Line(2, "]") == "  ]"
    ensures Line(4, "{") == "    {" && Line(4, "}") == "    }"
    ensures Line(6, "permissions = {") == "      permissions = {" && Line(6, "}") == "      }"
    ensures Line(8, "publish = {") == "        publish = {" && Line(8, "subscribe = {") == "        subscribe = {"
    ensures Line(8, "}") == "        }"
    ensures seq(6, i => ' ') == "      " && seq(10, i => ' ') == "          "
  {
    Spaces();
    assert "  users = [" == "  " + "users = [" && "  ]" == "  " + "]";
    assert "    {" == "    " + "{" && "    }" == "    " + "}";
    assert "      permissions = {" == "      " + "permissions = {" && "      }" == "      " + "}";
    assert "        publish = {" == "        " + "publish = {" &&
        "        subscribe = {" == "        " + "subscribe = {";
    assert "        }" == "        " + "}";
  }

  lemma EntryBody(user: string, prefix: string, body: seq<string>)
    requires Plain(user) && Plain(prefix)
    requires body == [
      "    {", "      user = \"" + user + "\"", "      permissions = {", "        publish = {",
      "          allow = [\"" + prefix + "\"]", "        }", "        subscribe = {",
      "          allow = [\"" + prefix + "\"]", "        }", "      }"]
    ensures EntryLines(Entry(user, [prefix], [prefix])) == body
  {
    hide UserBody, AllowBody;
    PlainText(user, prefix);
    Margins();
    assert "      user = \"" == "      " + "user = \"" && "          allow = [\"" == "          " + "allow = [\"";
    assert Line(6, UserBody(user)) == "      user = \"" + user + "\"";
    assert Line(10, AllowBody([prefix])) == "          allow = [\"" + prefix + "\"]";
  }
}
