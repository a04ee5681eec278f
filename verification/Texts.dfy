/** The order of texts by code point, sorting sets of texts, and stripping white space. */
module Texts {
  import opened Wrappers

  predicate TextLess(a: string, b: string) {
    b != "" && (a == "" || a[0] < b[0] || (a[0] == b[0] && TextLess(a[1..], b[1..])))
  }

  lemma {:induction false} TextTrichotomy(a: string, b: string)
    ensures TextLess(a, b) || a == b || TextLess(b, a)
    ensures !(TextLess(a, b) && TextLess(b, a))
  {
    if a != "" && b != "" && a[0] == b[0] {
      TextTrichotomy(a[1..], b[1..]);
      assert a == [a[0]] + a[1..] && b == [b[0]] + b[1..];
    }
  }

  lemma {:induction false} TextIrreflexive(a: string)
    ensures !TextLess(a, a)
  {
    if a != "" { TextIrreflexive(a[1..]); }
  }

  lemma {:induction false} TextTransitive(a: string, b: string, c: string)
    requires TextLess(a, b) && TextLess(b, c)
    ensures TextLess(a, c)
  {
    if a != "" && a[0] == b[0] && b[0] == c[0] { TextTransitive(a[1..], b[1..], c[1..]); }
  }

  ghost predicate Rising(s: seq<string>) {
    forall i, j :: 0 <= i < j < |s| ==> TextLess(s[i], s[j])
  }

  function InsertText(x: string, s: seq<string>): seq<string> {
    if s == [] || TextLess(x, s[0]) then [x] + s else [s[0]] + InsertText(x, s[1..])
  }

  lemma {:induction false} InsertRising(x: string, s: seq<string>)
    requires Rising(s) && x !in s
    ensures Rising(InsertText(x, s))
    ensures forall y :: y in InsertText(x, s) <==> y == x || y in s
  {
    hide TextLess;
    if s != [] {
      assert s == [s[0]] + s[1..];
      TextTrichotomy(x, s[0]);
      if TextLess(x, s[0]) {
        forall y | y in s[1..] ensures TextLess(x, y) {
          var i :| 0 <= i < |s[1..]| && s[1..][i] == y;
          TextTransitive(x, s[0], s[i + 1]);
        }
      } else {
        forall y | y in s[1..] ensures TextLess(s[0], y) {
          var i :| 0 <= i < |s[1..]| && s[1..][i] == y;
          assert TextLess(s[0], s[i + 1]);
        }
        InsertRising(x, s[1..]);
        var rest := InsertText(x, s[1..]);
        forall j | 0 <= j < |rest| ensures TextLess(s[0], rest[j]) { assert rest[j] in rest; }
      }
    }
  }

  lemma {:induction false} RisingDistinct(s: seq<string>)
    requires Rising(s)
    ensures Distinct(s)
  {
    forall i, j | 0 <= i < j < |s| ensures s[i] != s[j] {
      TextIrreflexive(s[i]);
    }
  }

  /** sorted() of a set of texts. */
  method SortedTexts(texts: set<string>) returns (s: seq<string>)
    ensures Rising(s) && Elems(s) == texts
  {
    s := [];
    var rest := texts;
    while rest != {}
      invariant rest <= texts && Rising(s) && Elems(s) == texts - rest
      decreases rest
    {
      var x :| x in rest;
      assert x !in Elems(s);
      InsertRising(x, s);
      hide InsertText;
      hide Rising;
      ghost var was := s;
      s := InsertText(x, s);
      assert Elems(s) == Elems(was) + {x};
      rest := rest - {x};
    }
  }

  // ----- str.strip -------------------------------------------------------------------------------

  /** str.isspace of one character. */
  predicate IsSpace(c: char) {
    var n := c as int;
    9 <= n <= 13 || 28 <= n <= 32 || n == 0x85 || n == 0xA0 || n == 0x1680 || 0x2000 <= n <= 0x200A
    || n == 0x2028 || n == 0x2029 || n == 0x202F || n == 0x205F || n == 0x3000
  }

  function StripLeft(s: string): string {
    if s != "" && IsSpace(s[0]) then StripLeft(s[1..]) else s
  }

  function StripRight(s: string): string {
    if s != "" && IsSpace(s[|s| - 1]) then StripRight(s[..|s| - 1]) else s
  }

  function Strip(s: string): string { StripRight(StripLeft(s)) }
}
