/**
 * The parts of Ruby's String behaviour that the EV3 library relies on when it
 * turns sysfs attribute text into values: `strip`, `split(' ')`, `split('=')`,
 * `each_line`, `downcase`, `to_i` and `Integer#to_s`.
 */
module Text {

  /** Ruby's ASCII whitespace: space, \t, \n, \v, \f, \r. */
  predicate IsSpace(c: char) {
    c == ' ' || c == '\t' || c == '\n' || c == '\U{000B}' || c == '\U{000C}' || c == '\r'
  }

  predicate IsDigit(c: char) { '0' <= c <= '9' }

  function DigitValue(c: char): (d: nat)
    requires IsDigit(c)
    ensures d < 10
  {
    (c as int) - ('0' as int)
  }

  function DigitChar(d: nat): (c: char)
    requires d < 10
    ensures IsDigit(c) && DigitValue(c) == d
  {
    (('0' as int) + d) as char
  }

  predicate StartsWith(s: string, prefix: string) {
    |prefix| <= |s| && s[..|prefix|] == prefix
  }

  // ---------------------------------------------------------------------------
  // String#strip

  /** Drops the leading whitespace run. */
  function TrimLeft(s: string): (r: string)
    ensures |r| <= |s| && r == s[|s| - |r|..]
    ensures r != [] ==> !IsSpace(r[0])
  {
    if s != [] && IsSpace(s[0]) then TrimLeft(s[1..]) else s
  }

  /** Drops the trailing whitespace run. */
  function TrimRight(s: string): (r: string)
    ensures |r| <= |s| && r == s[..|r|]
    ensures r != [] ==> !IsSpace(r[|r| - 1])
  {
    if s != [] && IsSpace(s[|s| - 1]) then TrimRight(s[..|s| - 1]) else s
  }

  /** String#strip: the text between the leading and the trailing whitespace runs. */
  function Strip(s: string): (r: string)
    ensures r != [] ==> !IsSpace(r[0]) && !IsSpace(r[|r| - 1])
    ensures (s == [] || (!IsSpace(s[0]) && !IsSpace(s[|s| - 1]))) ==> r == s
  {
    TrimRight(TrimLeft(s))
  }

  // ---------------------------------------------------------------------------
  // String#downcase (ASCII letters; mruby's downcase does not fold other letters)

  function DowncaseChar(c: char): char {
    if 'A' <= c <= 'Z' then ((c as int) + 32) as char else c
  }

  function Downcase(s: string): (r: string)
    ensures |r| == |s|
    ensures forall i :: 0 <= i < |s| ==> r[i] == DowncaseChar(s[i])
  {
    if s == [] then [] else [DowncaseChar(s[0])] + Downcase(s[1..])
  }

  // ---------------------------------------------------------------------------
  // Integer#to_s and String#to_i (base 10)

  /** The decimal digits of a natural number, most significant first, without leading zeros. */
  function NatToString(n: nat): (s: string)
    ensures s != [] && forall i :: 0 <= i < |s| ==> IsDigit(s[i])
    ensures n > 0 ==> s[0] != '0'
  {
    if n < 10 then [DigitChar(n)] else NatToString(n / 10) + [DigitChar(n % 10)]
  }

  /** Integer#to_s. */
  function IntToString(n: int): string {
    if n < 0 then "-" + NatToString(-n) else NatToString(n)
  }

  /** The longest prefix of `s` made of decimal digits. */
  function DigitPrefix(s: string): (r: string)
    ensures |r| <= |s| && r == s[..|r|]
    ensures forall i :: 0 <= i < |r| ==> IsDigit(r[i])
    ensures |r| < |s| ==> !IsDigit(s[|r|])
  {
    if s != [] && IsDigit(s[0]) then [s[0]] + DigitPrefix(s[1..]) else []
  }

  /** The number a string of digits denotes (most significant first). */
  function DigitsValue(ds: string): nat
    requires forall i :: 0 <= i < |ds| ==> IsDigit(ds[i])
  {
    if ds == [] then 0 else DigitsValue(ds[..|ds| - 1]) * 10 + DigitValue(ds[|ds| - 1])
  }

  /**
   * String#to_i: leading whitespace is skipped, then an optional sign, then the
   * longest run of digits; text without digits there gives 0. (Ruby's `_` digit
   * separators are not modelled.)
   */
  function ToI(s: string): int {
    var t := TrimLeft(s);
    if t != [] && t[0] == '-' then -(DigitsValue(DigitPrefix(t[1..])) as int)
    else if t != [] && t[0] == '+' then DigitsValue(DigitPrefix(t[1..]))
    else DigitsValue(DigitPrefix(t))
  }

  lemma DigitPrefixOfDigits(s: string)
    requires forall i :: 0 <= i < |s| ==> IsDigit(s[i])
    ensures DigitPrefix(s) == s
  {
    if s != [] {
      DigitPrefixOfDigits(s[1..]);
    }
  }

  lemma {:induction false} DigitsValueOfNatToString(n: nat)
    ensures DigitsValue(NatToString(n)) == n
  {
    var s := NatToString(n);
    if n >= 10 {
      DigitsValueOfNatToString(n / 10);
      assert s[..|s| - 1] == NatToString(n / 10);
    }
  }

  lemma TrimLeftUnchanged(s: string)
    requires s == [] || !IsSpace(s[0])
    ensures TrimLeft(s) == s
  {
  }

  /** Reading back what Integer#to_s wrote gives the integer again. */
  lemma ToIOfIntToString(n: int)
    ensures ToI(IntToString(n)) == n
  {
    if n < 0 {
      var d := NatToString(-n);
      var s := "-" + d;
      TrimLeftUnchanged(s);
      assert s[1..] == d;
      DigitPrefixOfDigits(d);
      DigitsValueOfNatToString(-n);
      assert ToI(s) == -(DigitsValue(d) as int);
    } else {
      var s := NatToString(n);
      TrimLeftUnchanged(s);
      assert s[0] != '-' && s[0] != '+';
      DigitPrefixOfDigits(s);
      DigitsValueOfNatToString(n);
      assert ToI(s) == DigitsValue(s);
    }
  }

  /** Integer#to_s never produces surrounding whitespace, so `strip` leaves it alone. */
  lemma StripOfIntToString(n: int)
    ensures Strip(IntToString(n)) == IntToString(n)
  {
    var s := IntToString(n);
    assert !IsSpace(s[0]);
    assert TrimLeft(s) == s;
    assert !IsSpace(s[|s| - 1]);
  }

  // ---------------------------------------------------------------------------
  // String#split(' '): awk-style splitting into maximal non-whitespace runs

  predicate IsWord(w: string) {
    w != [] && forall i :: 0 <= i < |w| ==> !IsSpace(w[i])
  }

  /** The maximal whitespace-free prefix of `s`. */
  function TakeWord(s: string): (w: string)
    ensures |w| <= |s| && w == s[..|w|]
    ensures forall i :: 0 <= i < |w| ==> !IsSpace(w[i])
    ensures |w| < |s| ==> IsSpace(s[|w|])
  {
    if s == [] || IsSpace(s[0]) then [] else [s[0]] + TakeWord(s[1..])
  }

  /** String#split(' '): leading, trailing and repeated whitespace produce no empty fields. */
  function Words(s: string): (ws: seq<string>)
    ensures forall i :: 0 <= i < |ws| ==> IsWord(ws[i])
    decreases |s|
  {
    if s == [] then []
    else if IsSpace(s[0]) then Words(s[1..])
    else
      var w := TakeWord(s);
      [w] + Words(s[|w|..])
  }

  /** Joins words with single spaces (Array#join(' ')). */
  function JoinSpaced(ws: seq<string>): string {
    if ws == [] then ""
    else if |ws| == 1 then ws[0]
    else ws[0] + " " + JoinSpaced(ws[1..])
  }

  /** A join of words starts and ends inside a word, so `strip` leaves it alone. */
  lemma {:induction false} StripOfJoinSpaced(ws: seq<string>)
    requires forall i :: 0 <= i < |ws| ==> IsWord(ws[i])
    ensures Strip(JoinSpaced(ws)) == JoinSpaced(ws)
  {
    JoinSpacedEnds(ws);
  }

  lemma {:induction false} JoinSpacedEnds(ws: seq<string>)
    requires forall i :: 0 <= i < |ws| ==> IsWord(ws[i])
    ensures var s := JoinSpaced(ws); s == [] || (!IsSpace(s[0]) && !IsSpace(s[|s| - 1]))
  {
    if |ws| > 1 {
      JoinSpacedEnds(ws[1..]);
      var rest := JoinSpaced(ws[1..]);
      assert rest != [] by { assert IsWord(ws[1]); }
      var s := ws[0] + " " + rest;
      assert s[0] == ws[0][0];
      assert s[|s| - 1] == rest[|rest| - 1];
    } else if |ws| == 1 {
      assert IsWord(ws[0]);
    }
  }

  lemma {:induction false} TakeWordOfPrefix(w: string, t: string)
    requires IsWord(w)
    requires t == [] || IsSpace(t[0])
    ensures TakeWord(w + t) == w
  {
    assert (w + t)[1..] == w[1..] + t;
    if |w| == 1 {
      assert w[1..] + t == t;
    } else {
      TakeWordOfPrefix(w[1..], t);
      assert [w[0]] + w[1..] == w;
    }
  }

  /** `split(' ')` undoes `join(' ')` on whitespace-free, non-empty words. */
  lemma {:induction false} WordsOfJoinSpaced(ws: seq<string>)
    requires forall i :: 0 <= i < |ws| ==> IsWord(ws[i])
    ensures Words(JoinSpaced(ws)) == ws
  {
    if ws == [] {
    } else if |ws| == 1 {
      TakeWordOfPrefix(ws[0], []);
      assert ws[0] + [] == ws[0];
      assert JoinSpaced(ws)[|ws[0]|..] == [];
    } else {
      var w, rest := ws[0], JoinSpaced(ws[1..]);
      var s := w + " " + rest;
      assert s == w + (" " + rest);
      TakeWordOfPrefix(w, " " + rest);
      assert s[|w|..] == " " + rest;
      assert (" " + rest)[1..] == rest;
      WordsOfJoinSpaced(ws[1..]);
      assert Words(s) == [w] + Words(" " + rest);
    }
  }

  // ---------------------------------------------------------------------------
  // String#split(c) for a one-character separator, and String#each_line

  /** Every piece between occurrences of `c` (one more piece than occurrences). */
  function Segments(s: string, c: char): (r: seq<string>)
    ensures |r| >= 1
    ensures forall i :: 0 <= i < |r| ==> c !in r[i]
  {
    if s == [] then [""]
    else if s[0] == c then [""] + Segments(s[1..], c)
    else
      var rest := Segments(s[1..], c);
      [[s[0]] + rest[0]] + rest[1..]
  }

  function DropTrailingEmpty(r: seq<string>): (t: seq<string>)
    ensures |t| <= |r| && t == r[..|t|]
    ensures t != [] ==> t[|t| - 1] != ""
    ensures forall i :: |t| <= i < |r| ==> r[i] == ""
  {
    if r != [] && r[|r| - 1] == "" then DropTrailingEmpty(r[..|r| - 1]) else r
  }

  /** String#split(c): the pieces between separators, with trailing empty pieces removed. */
  function SplitOn(s: string, c: char): seq<string> {
    DropTrailingEmpty(Segments(s, c))
  }

  /**
   * String#each_line, each line without its terminating "\n" (every caller
   * strips the line). A final "\n" does not start another line.
   */
  function Lines(s: string): seq<string> {
    if s == [] then []
    else
      var seg := Segments(s, '\n');
      if seg[|seg| - 1] == "" then seg[..|seg| - 1] else seg
  }

  lemma SegmentsWithout(s: string, c: char)
    requires c !in s
    ensures Segments(s, c) == [s]
  {
    if s != [] {
      SegmentsWithout(s[1..], c);
      assert [s[0]] + s[1..] == s;
    }
  }

  lemma {:induction false} SegmentsAppend(k: string, c: char, rest: string)
    requires c !in k
    ensures Segments(k + [c] + rest, c) == [k] + Segments(rest, c)
  {
    if k == [] {
      assert k + [c] + rest == [c] + rest;
    } else {
      SegmentsAppend(k[1..], c, rest);
      assert (k + [c] + rest)[1..] == k[1..] + [c] + rest;
      assert [k[0]] + k[1..] == k;
    }
  }

  /**
   * In `key<c>value<c>...`, `split(c)` yields the key first and the value
   * second, whatever follows the value: a further separator truncates it.
   */
  lemma SplitOnKeyValue(k: string, c: char, v: string, rest: string)
    requires c !in k && c !in v && v != ""
    ensures |SplitOn(k + [c] + v + rest, c)| >= 2
    ensures SplitOn(k + [c] + v + rest, c)[0] == k
    ensures rest == [] || rest[0] == c ==> SplitOn(k + [c] + v + rest, c)[1] == v
  {
    var s := k + [c] + v + rest;
    assert s == k + [c] + (v + rest);
    SegmentsAppend(k, c, v + rest);
    var segs := Segments(s, c);
    var tail := Segments(v + rest, c);
    assert segs == [k] + tail;
    assert tail[0] != "" by {
      if rest == [] {
        assert v + rest == v;
        SegmentsWithout(v, c);
      } else {
        assert v + rest == v[..|v|-1] + [v[|v|-1]] + rest;
        VNonEmptyHead(v, rest, c);
      }
    }
    var t := SplitOn(s, c);
    assert segs[1] != "";
    if rest != [] && rest[0] == c {
      assert v + rest == v + [c] + rest[1..];
      SegmentsAppend(v, c, rest[1..]);
    } else if rest == [] {
      assert v + rest == v;
      SegmentsWithout(v, c);
    }
  }

  lemma {:induction false} VNonEmptyHead(v: string, rest: string, c: char)
    requires c !in v && v != ""
    ensures Segments(v + rest, c)[0] != ""
  {
    var s := v + rest;
    assert s[0] == v[0] != c;
  }
}
