/** White space and stripping, as Python strings have them. */
module Text {

  /** Characters that `str.strip` removes and `str.isspace` accepts. */
  predicate IsSpace(c: char) {
    var n := c as int;
    || 9 <= n <= 13 || 28 <= n <= 32 || n == 0x85 || n == 0xA0 || n == 0x1680 || 0x2000 <= n <= 0x200A
    || n == 0x2028 || n == 0x2029 || n == 0x202F || n == 0x205F || n == 0x3000
  }

  /** Line boundaries of `str.splitlines`. */
  predicate IsLineBreak(c: char) {
    var n := c as int;
    10 <= n <= 13 || 28 <= n <= 30 || n == 0x85 || n == 0x2028 || n == 0x2029
  }

  function StripLeft(s: string): (r: string)
    ensures |r| <= |s|
    ensures r == s[|s| - |r|..]
    ensures r != "" ==> !IsSpace(r[0])
  {
    if s != "" && IsSpace(s[0]) then StripLeft(s[1..]) else s
  }

  function StripRight(s: string): (r: string)
    ensures |r| <= |s|
    ensures r == s[..|r|]
    ensures r != "" ==> !IsSpace(r[|r| - 1])
  {
    if s != "" && IsSpace(s[|s| - 1]) then StripRight(s[..|s| - 1]) else s
  }

  function Strip(s: string): (r: string)
    ensures |r| <= |s|
  {
    StripRight(StripLeft(s))
  }

  /** The characters of a text that are not white space. */
  function Ink(s: string): (r: string)
    ensures |r| <= |s|
  {
    if s == "" then "" else (if IsSpace(s[0]) then "" else [s[0]]) + Ink(s[1..])
  }

  lemma {:induction false} InkAppend(s: string, t: string)
    ensures Ink(s + t) == Ink(s) + Ink(t)
  {
    hide IsSpace;
    if s == "" {
      assert s + t == t;
    } else {
      assert (s + t)[1..] == s[1..] + t;
      InkAppend(s[1..], t);
    }
  }

  lemma {:induction false} InkStripLeft(s: string)
    ensures Ink(StripLeft(s)) == Ink(s)
  {
    if s != "" && IsSpace(s[0]) { InkStripLeft(s[1..]); }
  }

  lemma {:induction false} InkStripRight(s: string)
    ensures Ink(StripRight(s)) == Ink(s)
  {
    if s != "" && IsSpace(s[|s| - 1]) {
      InkStripRight(s[..|s| - 1]);
      var last := s[|s| - 1..];
      assert s == s[..|s| - 1] + last;
      InkAppend(s[..|s| - 1], last);
      assert Ink(last) == "" by { assert last[1..] == ""; }
    }
  }

  /** Stripping removes white space only, and everything when there is no ink. */
  lemma InkStrip(s: string)
    ensures Ink(Strip(s)) == Ink(s)
    ensures Strip(s) == "" <==> Ink(s) == ""
  {
    hide IsSpace, StripLeft, StripRight, Ink;
    InkStripLeft(s);
    InkStripRight(StripLeft(s));
    if Strip(s) == "" {
      NoInk();
    } else {
      InkBehind(Strip(s));
    }
  }

  predicate AllSpace(s: string) {
    forall i :: 0 <= i < |s| ==> IsSpace(s[i])
  }

  /** Stripping takes white space off both ends, and all of it: nothing is left, or what is left begins and ends
      with other characters. */
  lemma StripMeaning(s: string) returns (front: string, back: string)
    ensures s == front + Strip(s) + back && AllSpace(front) && AllSpace(back)
    ensures Strip(s) != "" ==> !IsSpace(Strip(s)[0]) && !IsSpace(Strip(s)[|Strip(s)| - 1])
  {
    hide *;
    front := LeftMeaning(s);
    back := RightMeaning(StripLeft(s));
    StripBoth(s);
    Joined(front, Strip(s), back);
  }

  lemma StripBoth(s: string)
    ensures Strip(s) == StripRight(StripLeft(s))
    ensures Strip(s) != "" ==> !IsSpace(Strip(s)[0]) && !IsSpace(Strip(s)[|Strip(s)| - 1])
  {
    hide IsSpace, StripLeft, StripRight;
    var l := StripLeft(s);
    assert Strip(s) != "" ==> Strip(s)[0] == l[0];
  }

  lemma LeftStep(s: string)
    ensures StripLeft(s) == if s != "" && IsSpace(s[0]) then StripLeft(s[1..]) else s
  {
    hide IsSpace;
  }

  lemma RightStep(s: string)
    ensures StripRight(s) == if s != "" && IsSpace(s[|s| - 1]) then StripRight(s[..|s| - 1]) else s
  {
    hide IsSpace;
  }

  lemma {:induction false} LeftMeaning(s: string) returns (front: string)
    ensures s == front + StripLeft(s) && AllSpace(front)
  {
    hide *;
    LeftStep(s);
    front := "";
    if s != "" && IsSpace(s[0]) {
      var f := LeftMeaning(s[1..]);
      front := [s[0]] + f;
      Joined([s[0]], f, StripLeft(s[1..]));
      FirstAndRest(s);
      SpaceInFront(s[0], f);
    } else {
      NoSpace();
      assert "" + s == s;
    }
  }

  lemma NoSpace()
    ensures AllSpace("")
  {
  }

  lemma FirstAndRest(s: string)
    requires s != ""
    ensures s == [s[0]] + s[1..] && s == s[..|s| - 1] + [s[|s| - 1]]
  {
  }

  lemma SpaceInFront(c: char, s: string)
    requires IsSpace(c) && AllSpace(s)
    ensures AllSpace([c] + s) && AllSpace(s + [c])
  {
    hide IsSpace;
  }

  lemma {:induction false} RightMeaning(s: string) returns (back: string)
    ensures s == StripRight(s) + back && AllSpace(back)
  {
    hide *;
    RightStep(s);
    back := "";
    if s != "" && IsSpace(s[|s| - 1]) {
      var b := RightMeaning(s[..|s| - 1]);
      back := b + [s[|s| - 1]];
      Joined(StripRight(s[..|s| - 1]), b, [s[|s| - 1]]);
      FirstAndRest(s);
      SpaceInFront(s[|s| - 1], b);
    } else {
      NoSpace();
      assert s + "" == s;
    }
  }

  lemma Joined(a: string, b: string, c: string)
    ensures (a + b) + c == a + (b + c)
  {
  }

  lemma NoInk()
    ensures Ink("") == ""
  {
  }

  lemma InkBehind(s: string)
    requires s != "" && !IsSpace(s[|s| - 1])
    ensures Ink(s) != ""
  {
    assert s == s[..|s| - 1] + [s[|s| - 1]];
    InkAppend(s[..|s| - 1], [s[|s| - 1]]);
  }

  function InkOf(parts: seq<string>): string {
    if parts == [] then "" else Ink(parts[0]) + InkOf(parts[1..])
  }

  lemma {:induction false} InkOfAppend(a: seq<string>, b: seq<string>)
    ensures InkOf(a + b) == InkOf(a) + InkOf(b)
  {
    if a == [] {
      assert a + b == b;
    } else {
      assert (a + b)[1..] == a[1..] + b;
      InkOfAppend(a[1..], b);
    }
  }
}
