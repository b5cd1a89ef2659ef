/**
 Stripping and lowering of text, as far as the services rely on them.
 */
module Texts {

  predicate Space(c: char) {
    c in " \t\n\r"
  }

  predicate Blank(s: string) {
    forall i | 0 <= i < |s| :: Space(s[i])
  }

  function StripLeft(t: string): string {
    if t != "" && Space(t[0]) then StripLeft(t[1..]) else t
  }

  function StripRight(t: string): string {
    if t != "" && Space(t[|t| - 1]) then StripRight(t[..|t| - 1]) else t
  }

  /** `str.strip` */
  function Strip(t: string): string {
    StripRight(StripLeft(t))
  }

  /** Neither begins nor ends with a space. */
  predicate Trimmed(s: string) {
    s != "" ==> !Space(s[0]) && !Space(s[|s| - 1])
  }

  lemma {:induction false} StripLeftDrops(a: string, t: string)
    requires Blank(a) && (t != "" ==> !Space(t[0]))
    ensures StripLeft(a + t) == t
  {
    if a == "" {
      assert a + t == t;
    } else {
      assert (a + t)[1..] == a[1..] + t;
      StripLeftDrops(a[1..], t);
    }
  }

  lemma {:induction false} StripRightDrops(t: string, b: string)
    requires Blank(b) && (t != "" ==> !Space(t[|t| - 1]))
    ensures StripRight(t + b) == t
  {
    if b == "" {
      assert t + b == t;
    } else {
      var n := |b| - 1;
      assert (t + b)[..|t| + n] == t + b[..n];
      StripRightDrops(t, b[..n]);
    }
  }

  lemma {:induction false} StripLeftSplits(t: string) returns (a: string)
    ensures Blank(a) && t == a + StripLeft(t) && (StripLeft(t) != "" ==> !Space(StripLeft(t)[0]))
  {
    a := "";
    if t != "" && Space(t[0]) {
      var rest := StripLeftSplits(t[1..]);
      a := [t[0]] + rest;
    }
  }

  lemma {:induction false} StripRightSplits(t: string) returns (b: string)
    ensures Blank(b) && t == StripRight(t) + b && (StripRight(t) != "" ==> !Space(StripRight(t)[|StripRight(t)| - 1]))
    ensures StripRight(t) != "" ==> StripRight(t)[0] == t[0]
  {
    b := "";
    if t != "" && Space(t[|t| - 1]) {
      var rest := StripRightSplits(t[..|t| - 1]);
      b := rest + [t[|t| - 1]];
    }
  }


  ghost predicate PaddedWith(t: string, a: string, r: string, b: string) {
    t == a + r + b && Blank(a) && Blank(b)
  }

  /** The result is the one trimmed text that the argument pads with spaces. */
  lemma StripIff(t: string, r: string)
    ensures Strip(t) == r <==> Trimmed(r) && exists a, b :: PaddedWith(t, a, r, b)
  {
    if Strip(t) == r {
      var a := StripLeftSplits(t);
      var b := StripRightSplits(StripLeft(t));
      assert a + (r + b) == a + r + b;
      assert PaddedWith(t, a, r, b);
    }
    if Trimmed(r) && exists a, b :: PaddedWith(t, a, r, b) {
      var a, b :| PaddedWith(t, a, r, b);
      StripOfPadded(a, r, b);
    }
  }

  lemma StripOfPadded(a: string, r: string, b: string)
    requires Blank(a) && Blank(b) && Trimmed(r)
    ensures Strip(a + r + b) == r
  {
    if r == "" {
      StripLeftDrops(a + r + b, "");
      assert a + r + b + "" == a + r + b;
    } else {
      assert a + r + b == a + (r + b);
      StripLeftDrops(a, r + b);
      StripRightDrops(r, b);
    }
  }

  /** Nothing is left exactly of a blank text. */
  lemma StripIsEmptyIff(t: string)
    ensures Strip(t) == "" <==> Blank(t)
  {
    if Blank(t) {
      assert t + "" + "" == t;
      StripOfPadded(t, "", "");
    }
    if Strip(t) == "" {
      StripIff(t, "");
      var a, b :| PaddedWith(t, a, "", b);
      assert t == a + b;
    }
  }

  // ------------------------------------------------------------ lower case

  const CAPITALS := "ABCDEFGHIJKLMNOPQRSTUVWXYZ"
  const SMALLS := "abcdefghijklmnopqrstuvwxyz"

  function LowerChar(c: char): char {
    if 'A' <= c <= 'Z' then (c as int + 32) as char else c
  }

  /** `str.lower` on Latin letters. */
  function Lower(s: string): (r: string)
    ensures |r| == |s| && forall i | 0 <= i < |s| :: r[i] == LowerChar(s[i])
  {
    seq(|s|, i requires 0 <= i < |s| => LowerChar(s[i]))
  }

  lemma LettersInOrder(k: nat)
    requires k < 26
    ensures CAPITALS[k] as int == 65 + k && SMALLS[k] as int == 97 + k
  {}

  /** Every capital becomes its small letter, everything else stays. */
  lemma LowerIs(c: char, k: nat)
    requires k < 26
    ensures c == CAPITALS[k] ==> LowerChar(c) == SMALLS[k]
    ensures c !in CAPITALS ==> LowerChar(c) == c
  {
    LettersInOrder(k);
    if 'A' <= c <= 'Z' {
      LettersInOrder(c as int - 65);
      assert CAPITALS[c as int - 65] == c;
    }
  }
}
