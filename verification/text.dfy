/**
 * The few Python string built-ins the bot relies on: `str()` of an integer,
 * `int()` of a string of digits, `str.replace` of one character by another,
 * joining names with a separator, and splitting a message into its lines
 * (the last one is used only to state what a message looks like).
 */
module Text {

  /** An ASCII decimal digit. */
  predicate IsDigit(c: char) {
    '0' <= c <= '9'
  }

  predicate AllDigits(s: string) {
    forall i :: 0 <= i < |s| ==> IsDigit(s[i])
  }

  function DigitChar(d: nat): (c: char)
    requires d < 10
    ensures IsDigit(c) && c as int - '0' as int == d
  {
    ('0' as int + d) as char
  }

  function DigitValue(c: char): (d: nat)
    requires IsDigit(c)
    ensures d < 10 && DigitChar(d) == c
  {
    c as int - '0' as int
  }

  /** `str(n)` for a natural number: decimal digits without a leading zero. */
  function NatToString(n: nat): (s: string)
    ensures |s| >= 1 && AllDigits(s)
    ensures s[0] == '0' ==> n == 0
    decreases n
  {
    if n < 10 then [DigitChar(n)] else NatToString(n / 10) + [DigitChar(n % 10)]
  }

  /** `str(i)` for any integer: a minus sign in front of a negative number. */
  function IntToString(i: int): (s: string)
  {
    if i < 0 then "-" + NatToString(-i) else NatToString(i)
  }

  /** `int(s)` for a string made only of ASCII digits (leading zeros allowed). */
  function DigitsValue(s: string): nat
    requires AllDigits(s)
  {
    if s == [] then 0 else DigitsValue(s[..|s| - 1]) * 10 + DigitValue(s[|s| - 1])
  }

  /** The strings `int()` reads as an integer, restricted to an optional minus sign and ASCII digits. */
  predicate IsIntLiteral(s: string) {
    (|s| >= 2 && s[0] == '-' && AllDigits(s[1..])) || (|s| >= 1 && AllDigits(s))
  }

  function ParseInt(s: string): int
    requires IsIntLiteral(s)
  {
    if s[0] == '-' then -(DigitsValue(s[1..]) as int) else DigitsValue(s)
  }

  lemma {:induction false} NatToStringRoundTrip(n: nat)
    ensures DigitsValue(NatToString(n)) == n
    decreases n
  {
    var s := NatToString(n);
    if n < 10 {
      assert s[..|s| - 1] == [];
    } else {
      NatToStringRoundTrip(n / 10);
      assert s[..|s| - 1] == NatToString(n / 10);
    }
  }

  /** `int(str(i)) == i`: the decimal rendering of an integer reads back as that integer. */
  lemma IntToStringRoundTrip(i: int)
    ensures IsIntLiteral(IntToString(i))
    ensures ParseInt(IntToString(i)) == i
  {
    var s := IntToString(i);
    if i < 0 {
      assert s[1..] == NatToString(-i);
      NatToStringRoundTrip(-i);
    } else {
      NatToStringRoundTrip(i);
    }
  }

  lemma IntToStringHasNoNewline(i: int)
    ensures '\n' !in IntToString(i)
  {
    var s := IntToString(i);
    if i < 0 {
      assert s == "-" + NatToString(-i);
      assert forall k :: 1 <= k < |s| ==> s[k] == NatToString(-i)[k - 1];
    }
  }

  /** `s.replace(from, to)` for single characters. */
  function ReplaceChar(s: string, from: char, to: char): (r: string)
    ensures |r| == |s|
    ensures forall k :: 0 <= k < |s| ==> r[k] == (if s[k] == from then to else s[k])
  {
    if s == [] then [] else [if s[0] == from then to else s[0]] + ReplaceChar(s[1..], from, to)
  }

  /**
   * The items of `xs` in order, with `sep` between consecutive items: what
   * a loop produces that appends `sep` before every item but the first.
   */
  function Join(xs: seq<string>, sep: string): string
  {
    if xs == [] then ""
    else if |xs| == 1 then xs[0]
    else xs[0] + sep + Join(xs[1..], sep)
  }

  /** Appending one more item extends the joined string by a separator and that item. */
  lemma {:induction false} JoinSnoc(xs: seq<string>, x: string, sep: string)
    ensures Join(xs + [x], sep) == if xs == [] then x else Join(xs, sep) + sep + x
  {
    if |xs| == 1 {
      assert (xs + [x])[1..] == [x];
    } else if |xs| > 1 {
      assert (xs + [x])[1..] == xs[1..] + [x];
      JoinSnoc(xs[1..], x, sep);
    }
  }

  /** Where item `i` starts in `Join(xs, sep)`: the lengths of the items before it and of their separators. */
  function Offset(xs: seq<string>, sep: string, i: nat): nat
    requires i <= |xs|
  {
    if i == 0 then 0 else Offset(xs, sep, i - 1) + |xs[i - 1]| + |sep|
  }

  lemma {:induction false} OffsetShift(xs: seq<string>, sep: string, i: nat)
    requires 1 <= i <= |xs|
    ensures Offset(xs, sep, i) == |xs[0]| + |sep| + Offset(xs[1..], sep, i - 1)
  {
    if i > 1 {
      OffsetShift(xs, sep, i - 1);
    }
  }

  lemma SliceOfConcat(a: string, b: string, p: nat, q: nat)
    requires p <= q <= |b|
    ensures (a + b)[|a| + p .. |a| + q] == b[p..q]
  {
  }

  /** The joined string is exactly as long as the items and the separators between them. */
  lemma {:induction false} JoinLength(xs: seq<string>, sep: string)
    requires xs != []
    ensures |Join(xs, sep)| + |sep| == Offset(xs, sep, |xs|)
  {
    if |xs| > 1 {
      JoinLength(xs[1..], sep);
      OffsetShift(xs, sep, |xs|);
    }
  }

  /**
   * Item `i` of `xs` sits unchanged at `Offset(xs, sep, i)` in `Join(xs, sep)`,
   * followed by `sep` unless it is the last item: the items keep their order.
   */
  lemma {:induction false} JoinAt(xs: seq<string>, sep: string, i: nat)
    requires i < |xs|
    ensures Offset(xs, sep, i) + |xs[i]| <= |Join(xs, sep)|
    ensures Join(xs, sep)[Offset(xs, sep, i) .. Offset(xs, sep, i) + |xs[i]|] == xs[i]
    ensures i + 1 < |xs| ==>
      Offset(xs, sep, i) + |xs[i]| + |sep| <= |Join(xs, sep)| &&
      Join(xs, sep)[Offset(xs, sep, i) + |xs[i]| .. Offset(xs, sep, i) + |xs[i]| + |sep|] == sep
    decreases i
  {
    var j := Join(xs, sep);
    if i == 0 {
      if |xs| > 1 {
        assert j == xs[0] + (sep + Join(xs[1..], sep));
        assert j[..|xs[0]|] == xs[0];
        assert j[|xs[0]| .. |xs[0]| + |sep|] == sep;
      }
    } else {
      var rest := xs[1..];
      var head := xs[0] + sep;
      JoinAt(rest, sep, i - 1);
      OffsetShift(xs, sep, i);
      assert j == head + Join(rest, sep);
      var o := Offset(rest, sep, i - 1);
      assert xs[i] == rest[i - 1];
      SliceOfConcat(head, Join(rest, sep), o, o + |xs[i]|);
      if i + 1 < |xs| {
        SliceOfConcat(head, Join(rest, sep), o + |xs[i]|, o + |xs[i]| + |sep|);
      }
    }
  }

  /** The lines of a string: the pieces between its newline characters, as `s.split('\n')` gives them. */
  function Lines(s: string): (r: seq<string>)
    ensures |r| >= 1
  {
    if s == [] then [""]
    else if s[0] == '\n' then [""] + Lines(s[1..])
    else var t := Lines(s[1..]); [[s[0]] + t[0]] + t[1..]
  }

  lemma {:induction false} LinesOfLine(s: string)
    requires '\n' !in s
    ensures Lines(s) == [s]
  {
    if s != [] {
      assert '\n' !in s[1..] by {
        forall k | 0 <= k < |s| - 1 ensures s[1..][k] != '\n' { assert s[1..][k] == s[k + 1]; }
      }
      LinesOfLine(s[1..]);
      assert [s[0]] + s[1..] == s;
    }
  }

  lemma LinesCons(c: char, s: string)
    ensures Lines([c] + s) == if c == '\n' then [""] + Lines(s) else [[c] + Lines(s)[0]] + Lines(s)[1..]
  {
    assert ([c] + s)[1..] == s;
  }

  /**
   * Concatenating two strings concatenates their lines, except that the last
   * line of the first and the first line of the second run together.
   */
  lemma {:induction false} LinesConcat(a: string, b: string)
    ensures var la, lb := Lines(a), Lines(b);
      Lines(a + b) == la[..|la| - 1] + [la[|la| - 1] + lb[0]] + lb[1..]
  {
    var lb := Lines(b);
    if a == [] {
      assert a + b == b;
      assert [] + lb[0] == lb[0];
      assert [lb[0]] + lb[1..] == lb;
    } else {
      var c, rest := a[0], a[1..];
      assert a == [c] + rest;
      assert a + b == [c] + (rest + b);
      LinesConcat(rest, b);
      LinesCons(c, rest);
      LinesCons(c, rest + b);
      if c == '\n' {
        GlueAfterNewline(Lines(rest), lb);
      } else {
        GlueAfterChar(c, Lines(rest), lb);
      }
    }
  }

  lemma GlueAfterNewline(lr: seq<string>, lb: seq<string>)
    requires |lr| >= 1 && |lb| >= 1
    ensures var la := [""] + lr;
      [""] + (lr[..|lr| - 1] + [lr[|lr| - 1] + lb[0]] + lb[1..]) == la[..|la| - 1] + [la[|la| - 1] + lb[0]] + lb[1..]
  {
    var la := [""] + lr;
    assert la[..|la| - 1] == [""] + lr[..|lr| - 1];
  }

  lemma GlueAfterChar(c: char, lr: seq<string>, lb: seq<string>)
    requires |lr| >= 1 && |lb| >= 1
    ensures var lt := lr[..|lr| - 1] + [lr[|lr| - 1] + lb[0]] + lb[1..];
      var la := [[c] + lr[0]] + lr[1..];
      [[c] + lt[0]] + lt[1..] == la[..|la| - 1] + [la[|la| - 1] + lb[0]] + lb[1..]
  {
    var lt := lr[..|lr| - 1] + [lr[|lr| - 1] + lb[0]] + lb[1..];
    var la := [[c] + lr[0]] + lr[1..];
    if |lr| == 1 {
      assert lt[0] == lr[0] + lb[0] && lt[1..] == lb[1..];
      assert [c] + (lr[0] + lb[0]) == ([c] + lr[0]) + lb[0];
      assert la[..|la| - 1] == [];
    } else {
      assert lt[0] == lr[0];
      assert lt[1..] == lr[1..|lr| - 1] + [lr[|lr| - 1] + lb[0]] + lb[1..];
      assert la[..|la| - 1] == [[c] + lr[0]] + lr[1..|lr| - 1];
    }
  }

  /** A newline between two strings keeps their lines apart. */
  lemma LinesSplit(a: string, b: string)
    ensures Lines(a + "\n" + b) == Lines(a) + Lines(b)
  {
    var nb := "\n" + b;
    assert nb[1..] == b;
    assert Lines(nb) == [""] + Lines(b);
    assert a + "\n" + b == a + nb;
    LinesConcat(a, nb);
    var la, lnb := Lines(a), Lines(nb);
    assert lnb[0] == "" && lnb[1..] == Lines(b);
    assert la[|la| - 1] + lnb[0] == la[|la| - 1];
    assert la[..|la| - 1] + [la[|la| - 1]] == la;
  }

  /** A single line followed by a newline puts that line in front of the lines of the rest. */
  lemma LinesAfterLine(h: string, s: string)
    requires '\n' !in h
    ensures Lines(h + "\n" + s) == [h] + Lines(s)
  {
    LinesSplit(h, s);
    LinesOfLine(h);
  }

  /** Four lines joined by newlines split back into those four lines. */
  lemma FourLines(l0: string, l1: string, l2: string, l3: string)
    requires '\n' !in l0 && '\n' !in l1 && '\n' !in l2 && '\n' !in l3
    ensures Lines(l0 + "\n" + l1 + "\n" + l2 + "\n" + l3) == [l0, l1, l2, l3]
  {
    LinesOfLine(l0);
    LinesOfLine(l1);
    LinesOfLine(l2);
    LinesOfLine(l3);
    LinesSplit(l0, l1);
    LinesSplit(l0 + "\n" + l1, l2);
    LinesSplit(l0 + "\n" + l1 + "\n" + l2, l3);
  }

  /** The strings one after the other, nothing between them. */
  function Concat(texts: seq<string>): string
  {
    if texts == [] then "" else Concat(texts[..|texts| - 1]) + texts[|texts| - 1]
  }

  lemma AppendAssoc(a: string, b: string, c: string)
    ensures a + (b + c) == (a + b) + c
  {
  }

  lemma ConcatSnoc(texts: seq<string>, i: nat)
    requires i < |texts|
    ensures Concat(texts[..i + 1]) == Concat(texts[..i]) + texts[i]
  {
    assert texts[..i + 1][..i] == texts[..i];
  }

  /** A blank line between items: "\n\n" puts one empty line between the lines of consecutive items. */
  lemma JoinBlankStep(xs: seq<string>)
    requires |xs| >= 2
    ensures Lines(Join(xs, "\n\n")) == Lines(xs[0]) + [""] + Lines(Join(xs[1..], "\n\n"))
  {
    BlankLineSplit(xs[0], Join(xs[1..], "\n\n"));
  }

  /** "\n\n" between two texts is one empty line between their lines. */
  lemma BlankLineSplit(a: string, b: string)
    ensures Lines(a + "\n\n" + b) == Lines(a) + [""] + Lines(b)
  {
    var nb := ['\n'] + b;
    assert a + "\n\n" + b == a + "\n" + nb;
    LinesSplit(a, nb);
    LinesCons('\n', b);
  }

  /** The lines of each text. */
  function LinesOf(texts: seq<string>): (bs: seq<seq<string>>)
    ensures |bs| == |texts|
    ensures forall k :: 0 <= k < |texts| ==> bs[k] == Lines(texts[k])
  {
    seq(|texts|, k requires 0 <= k < |texts| => Lines(texts[k]))
  }

  /** Blocks of lines with one empty line between consecutive blocks. */
  function Blocks(bs: seq<seq<string>>): seq<string>
    requires bs != []
  {
    if |bs| == 1 then bs[0] else bs[0] + [""] + Blocks(bs[1..])
  }

  /** Joining texts with "\n\n" puts their lines in blocks separated by one empty line. */
  lemma {:induction false} JoinBlankLines(texts: seq<string>)
    requires texts != []
    ensures Lines(Join(texts, "\n\n")) == Blocks(LinesOf(texts))
  {
    if |texts| > 1 {
      var rest := texts[1..];
      JoinBlankStep(texts);
      JoinBlankLines(rest);
      assert LinesOf(texts)[1..] == LinesOf(rest);
    }
  }

  /** In blocks of four lines each, block `i` occupies lines 5i to 5i+3, then an empty line. */
  lemma {:induction false} BlocksAt(bs: seq<seq<string>>, i: nat)
    requires forall k :: 0 <= k < |bs| ==> |bs[k]| == 4
    requires i < |bs|
    ensures var ls := Blocks(bs);
      |ls| == 5 * |bs| - 1 &&
      ls[5 * i .. 5 * i + 4] == bs[i] &&
      (i + 1 < |bs| ==> ls[5 * i + 4] == "")
  {
    if |bs| == 1 {
      assert Blocks(bs)[0..4] == bs[0];
    } else {
      var rest := bs[1..];
      if i == 0 {
        BlocksAt(rest, 0);
        BlockFirst(bs[0], Blocks(rest));
      } else {
        BlocksAt(rest, i - 1);
        BlockShift(bs[0], Blocks(rest), i - 1);
        assert bs[i] == rest[i - 1];
      }
    }
  }

  /** The first block of four lines, then the empty line. */
  lemma BlockFirst(l0: seq<string>, lr: seq<string>)
    requires |l0| == 4
    ensures |l0 + [""] + lr| == 5 + |lr|
    ensures (l0 + [""] + lr)[0 .. 4] == l0 && (l0 + [""] + lr)[4] == ""
  {
  }

  /** Block `j + 1` of `l0 + [""] + lr` is block `j` of `lr`. */
  lemma BlockShift(l0: seq<string>, lr: seq<string>, j: nat)
    requires |l0| == 4 && 5 * j + 4 <= |lr|
    ensures |l0 + [""] + lr| == 5 + |lr|
    ensures (l0 + [""] + lr)[5 * j + 5 .. 5 * j + 9] == lr[5 * j .. 5 * j + 4]
    ensures 5 * j + 4 < |lr| ==> (l0 + [""] + lr)[5 * j + 9] == lr[5 * j + 4]
  {
  }
}
