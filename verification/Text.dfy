/** The string operations the program takes from Python: trimming, joining, decimal printing. */
module Text {

  /** The code points that `str.isspace` and `\s` accept. */
  predicate IsSpace(c: char) {
    var n := c as int;
    || 9 <= n <= 13 || 28 <= n <= 32 || n == 133 || n == 160 || n == 0x1680 || 0x2000 <= n <= 0x200a
    || n == 0x2028 || n == 0x2029 || n == 0x202f || n == 0x205f || n == 0x3000
  }

  /** Tab to carriage return, the four separators, the blank, and the white space of Unicode beyond ASCII. */
  lemma SpacesAre(c: char)
    ensures IsSpace(c) <==>
              c in "\t\n\U{0B}\U{0C}\r\U{1C}\U{1D}\U{1E}\U{1F} \U{85}\U{A0}\U{1680}"
                 + "\U{2000}\U{2001}\U{2002}\U{2003}\U{2004}\U{2005}\U{2006}\U{2007}\U{2008}\U{2009}\U{200A}"
                 + "\U{2028}\U{2029}\U{202F}\U{205F}\U{3000}"
  {
  }

  function LStrip(s: string): string {
    if s != "" && IsSpace(s[0]) then LStrip(s[1..]) else s
  }

  function RStrip(s: string): string {
    if s != "" && IsSpace(s[|s| - 1]) then RStrip(s[..|s| - 1]) else s
  }

  function Strip(s: string): string {
    RStrip(LStrip(s))
  }

  predicate Trimmed(s: string) {
    s == "" || (!IsSpace(s[0]) && !IsSpace(s[|s| - 1]))
  }

  predicate AllSpace(s: string) {
    forall i :: 0 <= i < |s| ==> IsSpace(s[i])
  }

  lemma {:induction false} LStripSplits(s: string) returns (left: string)
    ensures s == left + LStrip(s) && AllSpace(left)
    ensures LStrip(s) == "" || !IsSpace(LStrip(s)[0])
  {
    if s != "" && IsSpace(s[0]) {
      left := LStripSplits(s[1..]);
      left := [s[0]] + left;
    } else {
      left := "";
    }
  }

  lemma {:induction false} RStripSplits(s: string) returns (right: string)
    ensures s == RStrip(s) + right && AllSpace(right)
    ensures RStrip(s) == "" || !IsSpace(RStrip(s)[|RStrip(s)| - 1])
  {
    if s != "" && IsSpace(s[|s| - 1]) {
      right := RStripSplits(s[..|s| - 1]);
      right := right + [s[|s| - 1]];
    } else {
      right := "";
    }
  }

  /** Stripping takes white space off both ends, and nothing else. */
  lemma StripSplits(s: string) returns (left: string, right: string)
    ensures s == left + Strip(s) + right && AllSpace(left) && AllSpace(right)
    ensures Trimmed(Strip(s))
  {
    left := LStripSplits(s);
    right := RStripSplits(LStrip(s));
    if Strip(s) != "" {
      assert Strip(s)[0] == LStrip(s)[0];
    }
  }

  lemma StripTrimmed(s: string)
    requires Trimmed(s)
    ensures Strip(s) == s
  {
  }

  /** `separator.join(parts)`. */
  function Join(separator: string, parts: seq<string>): string {
    if parts == [] then "" else
    if |parts| == 1 then parts[0] else Join(separator, parts[..|parts| - 1]) + separator + parts[|parts| - 1]
  }

  lemma JoinAppend(separator: string, s: seq<string>, part: string)
    requires s != []
    ensures Join(separator, s + [part]) == Join(separator, s) + separator + part
  {
    assert (s + [part])[..|s|] == s;
  }

  lemma SplitLast(s: seq<string>, t: seq<string>)
    requires t != []
    ensures var n := |t| - 1;
            s + t == (s + t[..n]) + [t[n]] && t == t[..n] + [t[n]]
  {
  }

  lemma Regroup(a: string, separator: string, b: string, c: string)
    ensures (a + (separator + b)) + separator + c == a + (separator + (b + separator + c))
  {
  }

  /** A join of two lists is the two joins with the separator between them. */
  lemma {:induction false} JoinConcat(separator: string, s: seq<string>, t: seq<string>)
    requires s != [] && t != []
    ensures Join(separator, s + t) == Join(separator, s) + (separator + Join(separator, t))
  {
    var n := |t| - 1;
    if n == 0 {
      JoinAppend(separator, s, t[0]);
      assert t == [t[0]];
    } else {
      JoinConcat(separator, s, t[..n]);
      JoinAppend(separator, s + t[..n], t[n]);
      JoinAppend(separator, t[..n], t[n]);
      SplitLast(s, t);
      Regroup(Join(separator, s), separator, Join(separator, t[..n]), t[n]);
    }
  }

  /** One part alone is joined to itself, and nothing to nothing. */
  lemma JoinOne(separator: string, part: string)
    ensures Join(separator, [part]) == part && Join(separator, []) == ""
  {
  }

  // ----- decimal numerals -----

  function Digit(d: nat): (c: char)
    requires d < 10
    ensures '0' <= c <= '9'
  {
    '0' + d as char
  }

  function Decimal(n: nat): (s: string)
    ensures s != "" && forall i :: 0 <= i < |s| ==> '0' <= s[i] <= '9'
  {
    if n < 10 then [Digit(n)] else Decimal(n / 10) + [Digit(n % 10)]
  }

  predicate Digits(s: string) {
    forall i :: 0 <= i < |s| ==> '0' <= s[i] <= '9'
  }

  /** The number that a decimal numeral stands for. */
  function Value(s: string): nat
    requires Digits(s)
  {
    if s == "" then 0 else 10 * Value(s[..|s| - 1]) + (s[|s| - 1] as int - '0' as int)
  }

  /** The numeral of n stands for n, and has no leading zero. */
  lemma {:induction false} DecimalReads(n: nat)
    ensures Digits(Decimal(n)) && Value(Decimal(n)) == n
    ensures n > 0 ==> Decimal(n)[0] != '0'
  {
    var s := Decimal(n);
    if n < 10 {
      assert s[..0] == "";
    } else {
      DecimalReads(n / 10);
      assert s[..|s| - 1] == Decimal(n / 10);
    }
  }

  lemma {:induction false} DecimalInjective(m: nat, n: nat)
    requires Decimal(m) == Decimal(n)
    ensures m == n
  {
    var s := Decimal(m);
    assert s[|s| - 1] == Digit(m % 10) == Digit(n % 10);
    assert m % 10 == n % 10;
    if m < 10 || n < 10 {
      assert |s| == 1;
    } else {
      assert s[..|s| - 1] == Decimal(m / 10) == Decimal(n / 10);
      DecimalInjective(m / 10, n / 10);
    }
  }
}
