/** The nine-bit permission mask of `pkg/authz/mode.go` with its printer and parser.
    A mask is the set of its one-bits, so `m & bit != 0` is membership and `m |= bit` is union. */
module Mode {
  import opened Wrappers

  type Mode = set<nat>

  const LETTERS: string := "rwxrwxrwx"

  datatype Action = Read | Write | Execute
  datatype Class = Owner | Group | Other

  /** Bit number of a class and action: owner bits 8-6, group bits 5-3, other bits 2-0. */
  function BitOf(c: Class, a: Action): nat {
    (match c case Owner => 6 case Group => 3 case Other => 0) +
    (match a case Read => 2 case Write => 1 case Execute => 0)
  }

  /** The accessors `OwnerRead` ... `OtherExecute`. */
  predicate Grants(m: Mode, c: Class, a: Action) {
    BitOf(c, a) in m
  }

  function Render(m: Mode): string {
    seq(9, i requires 0 <= i < 9 => if 8 - i in m then LETTERS[i] else '-')
  }

  /** The language of the regular expression `validRwxRe`. */
  predicate IsRwx(s: string) {
    |s| == 9 && forall i :: 0 <= i < 9 ==> s[i] == LETTERS[i] || s[i] == '-'
  }

  /** Whether the letter standing for bit `b` is present. */
  predicate LetterAt(s: string, b: nat)
    requires |s| == 9
  {
    b < 9 && s[8 - b] == LETTERS[8 - b]
  }

  /** The mask a permission string denotes, and nothing outside `validRwxRe`. */
  function Parse(s: string): Option<Mode> {
    if IsRwx(s) then Some(set b: nat | b < 9 && LetterAt(s, b)) else None
  }

  /** `ParseMode`: one pass over the table of positions, stopping at the first bad character. */
  method ParseMode(s: string) returns (r: Option<Mode>)
    ensures r == Parse(s)
  {
    if |s| != 9 {
      return None;
    }
    var m: Mode := {};
    for i := 0 to 9
      invariant m == set b: nat | 8 - i < b < 9 && LetterAt(s, b)
      invariant forall j :: 0 <= j < i ==> s[j] == LETTERS[j] || s[j] == '-'
    {
      var c := s[i];
      if c == LETTERS[i] {
        m := m + {8 - i};
      } else if c != '-' {
        return None;
      }
    }
    assert m == set b: nat | b < 9 && LetterAt(s, b);
    return Some(m);
  }

  /** Printing what was parsed gives the text back. */
  lemma RenderParse(s: string)
    requires Parse(s).Some?
    ensures Render(Parse(s).value) == s
  {
    var m := Parse(s).value;
    forall i | 0 <= i < 9 ensures Render(m)[i] == s[i] {
      assert 8 - i in m <==> LetterAt(s, 8 - i);
    }
  }

  /** Parsing what was printed gives the mask back, on exactly the nine-bit masks. */
  lemma ParseRender(m: Mode)
    ensures Parse(Render(m)).Some?
    ensures Parse(Render(m)) == Some(m) <==> forall b <- m :: b < 9
  {
    var s := Render(m);
    var p := Parse(s).value;
    forall b: nat ensures b in p <==> b in m && b < 9 {
      if b < 9 {
        assert LetterAt(s, b) <==> b in m;
      }
    }
    if forall b <- m :: b < 9 {
      assert p == m;
    }
  }

  /** What a permission string grants, letter by letter: three letters for each class, in the
      order read, write, execute. */
  lemma GrantsReadString(s: string, c: Class, a: Action)
    requires IsRwx(s)
    ensures var at := (match c case Owner => 0 case Group => 3 case Other => 6) +
                      (match a case Read => 0 case Write => 1 case Execute => 2);
            Grants(Parse(s).value, c, a) <==>
            s[at] == (match a case Read => 'r' case Write => 'w' case Execute => 'x')
  {
    var b := BitOf(c, a);
    assert b in Parse(s).value <==> LetterAt(s, b);
  }
}
