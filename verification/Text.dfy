/** The operations of Go's `strings` package that the server relies on, over ASCII:
    lower-casing, trimming, splitting, joining and byte-wise comparison. */
module Text {
  // ASCII white space: tab, line feed, vertical tab, form feed, carriage return, space.
  const SPACE: set<char> := {'\t', '\n', '\U{0B}', '\U{0C}', '\r', ' '}

  function LowerChar(c: char): char {
    if 'A' <= c <= 'Z' then (c as int + 32) as char else c
  }

  function ToLower(s: string): string {
    seq(|s|, i requires 0 <= i < |s| => LowerChar(s[i]))
  }

  function TrimLeft(s: string, cut: set<char>): string {
    if s != [] && s[0] in cut then TrimLeft(s[1..], cut) else s
  }

  function TrimRight(s: string, cut: set<char>): string {
    if s != [] && s[|s| - 1] in cut then TrimRight(s[..|s| - 1], cut) else s
  }

  function Trim(s: string, cut: set<char>): string {
    TrimRight(TrimLeft(s, cut), cut)
  }

  function TrimSpace(s: string): string {
    Trim(s, SPACE)
  }

  /** `strings.Split` with a one-byte separator. */
  function Split(s: string, sep: char): (r: seq<string>)
    ensures |r| >= 1
  {
    if s == [] then [[]]
    else if s[0] == sep then [[]] + Split(s[1..], sep)
    else
      var r := Split(s[1..], sep);
      [[s[0]] + r[0]] + r[1..]
  }

  function Join(parts: seq<string>, sep: string): string {
    if parts == [] then []
    else if |parts| == 1 then parts[0]
    else parts[0] + sep + Join(parts[1..], sep)
  }

  /** Byte-wise order of Go strings. */
  predicate Less(a: string, b: string) {
    b != [] && (a == [] || a[0] < b[0] || (a[0] == b[0] && Less(a[1..], b[1..])))
  }

  // ----- case -----

  lemma LowerIdempotent(s: string)
    ensures ToLower(ToLower(s)) == ToLower(s)
  {
  }

  lemma LowerEmpty(s: string)
    ensures ToLower(s) == "" <==> s == ""
  {
  }

  // ----- trimming -----

  /** A string that neither starts nor ends with a cut character. */
  predicate Snug(s: string, cut: set<char>) {
    s == [] || (s[0] !in cut && s[|s| - 1] !in cut)
  }

  lemma {:induction false} TrimLeftCuts(s: string, cut: set<char>) returns (a: string)
    ensures s == a + TrimLeft(s, cut)
    ensures forall c <- a :: c in cut
    ensures TrimLeft(s, cut) == [] || TrimLeft(s, cut)[0] !in cut
  {
    if s != [] && s[0] in cut {
      var b := TrimLeftCuts(s[1..], cut);
      a := [s[0]] + b;
    } else {
      a := [];
    }
  }

  lemma {:induction false} TrimRightCuts(s: string, cut: set<char>) returns (b: string)
    ensures s == TrimRight(s, cut) + b
    ensures forall c <- b :: c in cut
    ensures TrimRight(s, cut) == [] || TrimRight(s, cut)[|TrimRight(s, cut)| - 1] !in cut
  {
    if s != [] && s[|s| - 1] in cut {
      var a := TrimRightCuts(s[..|s| - 1], cut);
      b := a + [s[|s| - 1]];
    } else {
      b := [];
    }
  }

  /** What trimming removes is exactly a margin of cut characters on each side. */
  lemma TrimCuts(s: string, cut: set<char>) returns (a: string, b: string)
    ensures s == a + Trim(s, cut) + b
    ensures forall c <- a :: c in cut
    ensures forall c <- b :: c in cut
    ensures Snug(Trim(s, cut), cut)
  {
    a := TrimLeftCuts(s, cut);
    var t := TrimLeft(s, cut);
    b := TrimRightCuts(t, cut);
    assert t == Trim(s, cut) + b;
    assert Trim(s, cut) != [] ==> Trim(s, cut)[0] == t[0];
  }

  lemma TrimSnug(s: string, cut: set<char>)
    requires Snug(s, cut)
    ensures Trim(s, cut) == s
  {
  }

  /** Margins of cut characters around a snug string are trimmed away. */
  lemma {:induction false} TrimMargins(a: string, s: string, b: string, cut: set<char>)
    requires Snug(s, cut) && s != []
    requires forall c <- a :: c in cut
    requires forall c <- b :: c in cut
    ensures Trim(a + s + b, cut) == s
    decreases |a| + |b|
  {
    if a != [] {
      assert (a + s + b)[1..] == a[1..] + s + b;
      TrimMargins(a[1..], s, b, cut);
    } else if b != [] {
      var t := a + s + b;
      assert t[..|t| - 1] == a + s + b[..|b| - 1];
      assert t[0] == s[0] && t[|t| - 1] == b[|b| - 1];
      TrimMargins(a, s, b[..|b| - 1], cut);
      assert TrimLeft(t, cut) == t;
      assert TrimLeft(t[..|t| - 1], cut) == t[..|t| - 1];
    } else {
      assert a + s + b == s;
    }
  }

  /** Lower-casing maps the 26 capitals to their letters and nothing else; white space is the space
      and the five control characters from tab to carriage return. */
  lemma CaseAndSpace(c: char)
    ensures forall i :: 0 <= i < 26 ==> LowerChar(CAPITALS[i]) == LETTERS[i]
    ensures c !in CAPITALS ==> LowerChar(c) == c
    ensures c in SPACE <==> c == ' ' || 9 <= c as int <= 13
  {
    Alphabet();
    if 'A' <= c <= 'Z' {
      assert CAPITALS[c as int - 65] == c;
    }
  }

  const CAPITALS := "ABCDEFGHIJKLM" + "NOPQRSTUVWXYZ"
  const LETTERS := "abcdefghijklm" + "nopqrstuvwxyz"

  lemma Alphabet()
    ensures |CAPITALS| == |LETTERS| == 26
    ensures forall i :: 0 <= i < 26 ==> CAPITALS[i] as int == 65 + i && LETTERS[i] as int == 97 + i
  {
  }

  // ----- splitting and joining -----

  lemma {:induction false} SplitOne(s: string, sep: char)
    requires sep !in s
    ensures Split(s, sep) == [s]
  {
    if s != [] {
      SplitOne(s[1..], sep);
      assert [s[0]] + s[1..] == s;
    }
  }

  lemma {:induction false} SplitCons(a: string, b: string, sep: char)
    requires sep !in a
    ensures Split(a + [sep] + b, sep) == [a] + Split(b, sep)
  {
    var s := a + [sep] + b;
    if a == [] {
      assert s[1..] == b;
    } else {
      assert s[1..] == a[1..] + [sep] + b;
      SplitCons(a[1..], b, sep);
      assert [a[0]] + a[1..] == a;
    }
  }

  /** Splitting undoes joining on parts that do not hold the separator. */
  lemma {:induction false} SplitJoin(parts: seq<string>, sep: char)
    requires parts != []
    requires forall p <- parts :: sep !in p
    ensures Split(Join(parts, [sep]), sep) == parts
  {
    hide Split;
    if |parts| == 1 {
      SplitOne(parts[0], sep);
    } else {
      SplitJoin(parts[1..], sep);
      SplitCons(parts[0], Join(parts[1..], [sep]), sep);
      assert [parts[0]] + parts[1..] == parts;
    }
  }

  /** Joining undoes splitting on every text. */
  lemma {:induction false} JoinSplit(s: string, sep: char)
    ensures Join(Split(s, sep), [sep]) == s
  {
    if s != [] {
      var r := Split(s[1..], sep);
      JoinSplit(s[1..], sep);
      if s[0] == sep {
        var t := [[]] + r;
        assert t[1..] == r && Join(t, [sep]) == [] + [sep] + Join(r, [sep]);
      } else {
        var t := [[s[0]] + r[0]] + r[1..];
        assert t[1..] == r[1..];
        assert Join(t, [sep]) == [s[0]] + Join(r, [sep]);
      }
    }
  }

  lemma {:induction false} SplitPartsFree(s: string, sep: char)
    ensures forall p <- Split(s, sep) :: sep !in p
  {
    if s != [] {
      SplitPartsFree(s[1..], sep);
    }
  }

  /** Splitting distributes over a separator, whatever stands around it. */
  lemma {:induction false} SplitAppend(a: string, b: string, sep: char)
    ensures Split(a + [sep] + b, sep) == Split(a, sep) + Split(b, sep)
  {
    var s := a + [sep] + b;
    if a == [] {
      assert s[1..] == b;
    } else {
      assert s[0] == a[0] && s[1..] == a[1..] + [sep] + b;
      SplitAppend(a[1..], b, sep);
      OntoFirst(a[0], Split(a[1..], sep), Split(b, sep));
    }
  }

  /** One character more in front of some parts, whatever parts follow. */
  lemma OntoFirst(c: char, r: seq<string>, u: seq<string>)
    requires r != []
    ensures [[c] + (r + u)[0]] + (r + u)[1..] == [[c] + r[0]] + r[1..] + u
    ensures [[]] + (r + u) == [[]] + r + u
  {
    assert (r + u)[1..] == r[1..] + u;
  }

  /** Where two texts agree, their parts up to the first separator agree. */
  lemma FirstSeparator(x: string, y: string, u: string, v: string, sep: char)
    requires sep !in x && sep !in u
    requires x + [sep] + y == u + [sep] + v
    ensures x == u && y == v
  {
    SplitCons(x, y, sep);
    SplitCons(u, v, sep);
    assert ([x] + Split(y, sep))[0] == x && ([u] + Split(v, sep))[0] == u;
    assert (x + [sep] + y)[|x| + 1..] == y && (u + [sep] + v)[|u| + 1..] == v;
  }

  lemma Behind(p: string, x: string, y: string)
    requires p + x == p + y
    ensures x == y
  {
    assert (p + x)[|p|..] == x && (p + y)[|p|..] == y;
  }

  // ----- order -----

  lemma {:induction false} LessTotal(a: string, b: string)
    ensures Less(a, b) || a == b || Less(b, a)
    ensures !(Less(a, b) && Less(b, a))
    ensures !Less(a, a)
  {
    if a != [] && b != [] {
      LessTotal(a[1..], b[1..]);
      if a[0] == b[0] && a[1..] == b[1..] {
        assert a == [a[0]] + a[1..] && b == [b[0]] + b[1..];
      }
    }
    LessIrreflexive(a);
  }

  lemma {:induction false} LessIrreflexive(a: string)
    ensures !Less(a, a)
  {
    if a != [] {
      LessIrreflexive(a[1..]);
    }
  }

  /** The order is decided at the first difference: the smaller character comes first, and so does
      the text that ends there. */
  lemma {:induction false} LessAtDifference(p: string, a: string, b: string)
    ensures Less(p + a, p + b) <==> Less(a, b)
    ensures b == [] ==> !Less(a, b)
    ensures a == [] && b != [] ==> Less(a, b)
    ensures a != [] && b != [] && a[0] != b[0] ==> (Less(a, b) <==> a[0] < b[0])
  {
    if p == [] {
      assert p + a == a && p + b == b;
    } else {
      LessAtDifference(p[1..], a, b);
      assert (p + a)[1..] == p[1..] + a && (p + b)[1..] == p[1..] + b;
    }
  }

  lemma {:induction false} LessTransitive(a: string, b: string, c: string)
    requires Less(a, b) && Less(b, c)
    ensures Less(a, c)
  {
    if a != [] && a[0] == b[0] && b[0] == c[0] {
      LessTransitive(a[1..], b[1..], c[1..]);
    }
  }
}
