/** The parts of Python's string handling that the bot relies on: str.strip (with the
    whitespace set of str.isspace), ASCII str.lower/str.upper, `in` on strings,
    str.startswith, str.replace for one character, str(int), and the decimal subsets of
    int(str) and float(str). */
module Text {
  import opened Wrappers

  /** The characters Python's str.isspace accepts. */
  predicate IsSpace(c: char) {
    var n := c as int;
    (9 <= n <= 13) || (28 <= n <= 32) || n == 0x85 || n == 0xA0 || n == 0x1680
    || (0x2000 <= n <= 0x200A) || n == 0x2028 || n == 0x2029 || n == 0x202F
    || n == 0x205F || n == 0x3000
  }

  /** str.lstrip() with no argument. */
  function LStrip(s: string): (r: string)
    ensures |r| <= |s| && r == s[|s| - |r|..]
    ensures r != [] ==> !IsSpace(r[0])
  {
    if s != [] && IsSpace(s[0]) then LStrip(s[1..]) else s
  }

  /** Python's str.strip() with no argument. */
  function Strip(s: string): (r: string)
    ensures r != [] ==> !IsSpace(r[0]) && !IsSpace(r[|r| - 1])
    ensures |r| <= |s|
    decreases |s|
  {
    if s != [] && IsSpace(s[0]) then Strip(s[1..])
    else if s != [] && IsSpace(s[|s| - 1]) then Strip(s[..|s| - 1])
    else s
  }

  /** str.rstrip() with no argument. */
  function RStrip(s: string): (r: string)
    ensures |r| <= |s| && r == s[..|r|]
    ensures r != [] ==> !IsSpace(r[|r| - 1])
    ensures forall k :: |r| <= k < |s| ==> IsSpace(s[k])
  {
    if s != [] && IsSpace(s[|s| - 1]) then RStrip(s[..|s| - 1]) else s
  }

  /** What lstrip() drops is whitespace. */
  lemma {:induction false} LStripSpaces(s: string)
    ensures forall k :: 0 <= k < |s| - |LStrip(s)| ==> IsSpace(s[k])
  {
    if s != [] && IsSpace(s[0]) {
      var t := s[1..];
      assert LStrip(s) == LStrip(t);
      LStripSpaces(t);
      forall k | 1 <= k < |s| - |LStrip(s)|
        ensures IsSpace(s[k])
      {
        assert s[k] == t[k - 1];
      }
    }
  }

  /** Leading whitespace makes no difference to strip(). */
  lemma {:induction false} StripDropsFront(p: string, s: string)
    requires forall k :: 0 <= k < |p| ==> IsSpace(p[k])
    ensures Strip(p + s) == Strip(s)
    decreases |p|
  {
    if p != [] {
      assert (p + s)[0] == p[0];
      assert (p + s)[1..] == p[1..] + s;
      StripDropsFront(p[1..], s);
    } else {
      assert p + s == s;
    }
  }

  /** Trailing whitespace makes no difference to strip(). */
  lemma {:induction false} StripDropsBack(s: string, q: string)
    requires forall k :: 0 <= k < |q| ==> IsSpace(q[k])
    ensures Strip(s + q) == Strip(s)
    decreases |s| + |q|
  {
    var t := s + q;
    if q == [] {
      assert t == s;
    } else if IsSpace(t[0]) {
      if s != [] {
        assert t[0] == s[0];
        assert t[1..] == s[1..] + q;
        StripDropsBack(s[1..], q);
      } else {
        assert t == q && t[1..] == [] + q[1..];
        StripDropsBack([], q[1..]);
      }
    } else {
      assert t[|t| - 1] == q[|q| - 1];
      assert t[..|t| - 1] == s + q[..|q| - 1];
      StripDropsBack(s, q[..|q| - 1]);
    }
  }

  /** A string is its lstrip()ped whitespace followed by the rest, and strips alike. */
  lemma LStripSplit(a: string) returns (front: string)
    ensures a == front + LStrip(a)
    ensures forall k :: 0 <= k < |front| ==> IsSpace(front[k])
    ensures Strip(LStrip(a)) == Strip(a)
  {
    front := a[..|a| - |LStrip(a)|];
    LStripSpaces(a);
    assert a == front + LStrip(a);
    StripDropsFront(front, LStrip(a));
  }

  /** A string is its rstrip()ped part followed by whitespace, and strips alike. */
  lemma RStripSplit(b: string) returns (back: string)
    ensures b == RStrip(b) + back
    ensures forall k :: 0 <= k < |back| ==> IsSpace(back[k])
    ensures Strip(RStrip(b)) == Strip(b)
  {
    back := b[|RStrip(b)|..];
    assert b == RStrip(b) + back;
    StripDropsBack(RStrip(b), back);
  }

  /** Whitespace on both sides makes no difference to strip(). */
  lemma StripDropsBoth(p: string, s: string, q: string)
    requires forall k :: 0 <= k < |p| ==> IsSpace(p[k])
    requires forall k :: 0 <= k < |q| ==> IsSpace(q[k])
    ensures Strip(p + (s + q)) == Strip(s)
  {
    StripDropsFront(p, s + q);
    StripDropsBack(s, q);
  }

  /** With no whitespace at either end, "a|b" is left as it is by strip(). */
  lemma BarCore(a1: string, b1: string)
    requires a1 != [] ==> !IsSpace(a1[0])
    requires b1 != [] ==> !IsSpace(b1[|b1| - 1])
    ensures Strip(a1 + "|" + b1) == a1 + "|" + b1
  {
    var core := a1 + "|" + b1;
    assert core[0] == (if a1 != [] then a1[0] else '|');
    assert core[|core| - 1] == (if b1 != [] then b1[|b1| - 1] else '|');
    StripNoSpaceEnds(core);
  }

  /** Regrouping "a|b" around the split points of a and b. */
  lemma RegroupBar(a: string, b: string, front: string, back: string, a1: string, b1: string)
    requires a == front + a1 && b == b1 + back
    ensures a + "|" + b == front + ((a1 + "|" + b1) + back)
  {
    assert a + "|" + b == (front + a1) + "|" + (b1 + back);
  }

  /** strip() of "a|b" keeps everything between a's leading and b's trailing whitespace. */
  lemma StripAroundBar(a: string, b: string)
    ensures Strip(a + "|" + b) == LStrip(a) + "|" + RStrip(b)
    ensures Strip(LStrip(a)) == Strip(a) && Strip(RStrip(b)) == Strip(b)
  {
    var a1, b1 := LStrip(a), RStrip(b);
    var front := LStripSplit(a);
    var back := RStripSplit(b);
    var core := a1 + "|" + b1;
    RegroupBar(a, b, front, back, a1, b1);
    StripDropsBoth(front, core, back);
    BarCore(a1, b1);
  }

  lemma StripNoSpaceEnds(s: string)
    requires s != [] ==> !IsSpace(s[0]) && !IsSpace(s[|s| - 1])
    ensures Strip(s) == s
  {
  }

  function LowerChar(c: char): (r: char)
    ensures 'A' <= c <= 'Z' ==> r as int == c as int + 32
    ensures !('A' <= c <= 'Z') ==> r == c
  {
    if 'A' <= c <= 'Z' then (c as int + 32) as char else c
  }

  /** str.lower() on ASCII letters. */
  function ToLower(s: string): (r: string)
    ensures |r| == |s|
    ensures forall i :: 0 <= i < |s| ==> r[i] == LowerChar(s[i])
  {
    if s == [] then [] else [LowerChar(s[0])] + ToLower(s[1..])
  }

  /** Text without capitals is its own lower case. */
  lemma ToLowerKeeps(s: string)
    requires forall i :: 0 <= i < |s| ==> !('A' <= s[i] <= 'Z')
    ensures ToLower(s) == s
  {
    assert forall i :: 0 <= i < |s| ==> ToLower(s)[i] == s[i];
  }

  /** str.upper() on ASCII letters. */
  function ToUpper(s: string): (r: string)
    ensures |r| == |s|
    ensures forall i :: 0 <= i < |s| ==> ('a' <= s[i] <= 'z' ==> r[i] as int == s[i] as int - 32)
    ensures forall i :: 0 <= i < |s| ==> (!('a' <= s[i] <= 'z') ==> r[i] == s[i])
  {
    if s == [] then []
    else [if 'a' <= s[0] <= 'z' then (s[0] as int - 32) as char else s[0]] + ToUpper(s[1..])
  }

  predicate StartsWith(s: string, prefix: string) {
    |prefix| <= |s| && s[..|prefix|] == prefix
  }

  /** Python's `sub in s` for strings. */
  predicate Contains(s: string, sub: string)
    decreases |s|
  {
    StartsWith(s, sub) || (s != [] && Contains(s[1..], sub))
  }

  /** str.replace(a, b) for one-character a and b. */
  function ReplaceChar(s: string, a: char, b: char): (r: string)
    ensures |r| == |s|
    ensures forall i :: 0 <= i < |s| ==> r[i] == (if s[i] == a then b else s[i])
  {
    if s == [] then [] else [if s[0] == a then b else s[0]] + ReplaceChar(s[1..], a, b)
  }

  /** Index of the first occurrence of c, as str.find. */
  function Find(s: string, c: char): (r: Option<nat>)
    ensures r.None? <==> c !in s
    ensures r.Some? ==> r.value < |s| && s[r.value] == c && c !in s[..r.value]
  {
    if s == [] then None
    else if s[0] == c then Some(0)
    else match Find(s[1..], c)
      case None => None
      case Some(k) => Some(k + 1)
  }

  /** str.split(sep) for a one-character separator: never empty, parts free of sep. */
  function Split(s: string, sep: char): (parts: seq<string>)
    ensures |parts| >= 1
    ensures forall p :: p in parts ==> sep !in p
    decreases |s|
  {
    match Find(s, sep)
    case None => [s]
    case Some(k) => [s[..k]] + Split(s[k + 1..], sep)
  }

  lemma {:induction false} SplitJoin(s: string, sep: char)
    ensures Join(Split(s, sep), sep) == s
    decreases |s|
  {
    match Find(s, sep)
    case None =>
    case Some(k) =>
      var rest := s[k + 1..];
      assert Split(s, sep) == [s[..k]] + Split(rest, sep);
      SplitJoin(rest, sep);
      assert Join(Split(s, sep), sep) == s[..k] + [sep] + Join(Split(rest, sep), sep);
      assert s == s[..k] + [sep] + rest;
  }

  function Join(parts: seq<string>, sep: char): string
    requires |parts| >= 1
  {
    if |parts| == 1 then parts[0] else parts[0] + [sep] + Join(parts[1..], sep)
  }
  /** The first separator after a separator-free prefix is the one right after it. */
  lemma FindAfter(a: string, b: string, c: char)
    requires c !in a
    ensures Find(a + [c] + b, c) == Some(|a|)
  {
    var s := a + [c] + b;
    assert s[|a|] == c;
    assert forall i :: 0 <= i < |a| ==> s[i] == a[i];
    assert forall k :: |a| < k <= |s| ==> s[..k][|a|] == c;
  }

  /** A separator-free prefix followed by the separator splits off as the first part. */
  lemma SplitAfter(a: string, rest: string, sep: char)
    requires sep !in a
    ensures Split(a + [sep] + rest, sep) == [a] + Split(rest, sep)
  {
    var s := a + [sep] + rest;
    FindAfter(a, rest, sep);
    assert s[..|a|] == a;
    assert s[|a| + 1..] == rest;
  }

  /** Splitting undoes joining parts that do not contain the separator. */
  lemma {:induction false} JoinSplit(parts: seq<string>, sep: char)
    requires |parts| >= 1 && forall p :: p in parts ==> sep !in p
    ensures Split(Join(parts, sep), sep) == parts
    decreases |parts|
  {
    if |parts| > 1 {
      var a, tail := parts[0], parts[1..];
      assert forall p :: p in tail ==> p in parts;
      var rest := Join(tail, sep);
      assert Join(parts, sep) == a + [sep] + rest;
      SplitAfter(a, rest, sep);
      JoinSplit(tail, sep);
      assert parts == [a] + tail;
    }
  }


  predicate IsDigit(c: char) { '0' <= c <= '9' }

  predicate AllDigits(s: string) { forall i :: 0 <= i < |s| ==> IsDigit(s[i]) }

  function DigitChar(d: nat): (c: char)
    requires d < 10
    ensures IsDigit(c) && c as int - '0' as int == d
  {
    ('0' as int + d) as char
  }

  /** The value of a run of decimal digits. */
  function DigitsValue(s: string): (n: nat)
    requires AllDigits(s)
  {
    if s == [] then 0 else DigitsValue(s[..|s| - 1]) * 10 + (s[|s| - 1] as int - '0' as int)
  }

  /** str(n) for a natural number: its shortest decimal spelling. */
  function ShowNat(n: nat): (s: string)
    ensures s != [] && AllDigits(s)
    ensures |s| > 1 ==> s[0] != '0'
  {
    if n < 10 then [DigitChar(n)] else ShowNat(n / 10) + [DigitChar(n % 10)]
  }

  /** str(n) for an int. */
  function ShowInt(n: int): (s: string)
    ensures s != [] && !IsSpace(s[0]) && !IsSpace(s[|s| - 1])
    ensures n >= 0 ==> AllDigits(s)
    ensures n < 0 ==> s[0] == '-' && AllDigits(s[1..])
  {
    if n < 0 then "-" + ShowNat(-n) else ShowNat(n)
  }

  lemma {:induction false} ShowNatValue(n: nat)
    ensures DigitsValue(ShowNat(n)) == n
  {
    if n >= 10 {
      ShowNatValue(n / 10);
      var s := ShowNat(n);
      assert s[..|s| - 1] == ShowNat(n / 10);
    }
  }

  /** The sign-and-digits core shared by int() and float(): the sign and the rest. */
  function SplitSign(t: string): (r: (bool, string))
    ensures r.1 == if t != [] && (t[0] == '-' || t[0] == '+') then t[1..] else t
    ensures r.0 <==> t != [] && t[0] == '-'
  {
    if t != [] && (t[0] == '-' || t[0] == '+') then (t[0] == '-', t[1..]) else (false, t)
  }

  /** A digit or a minus sign is all ShowInt writes. */
  lemma ShowIntHasNo(n: int, c: char)
    requires !IsDigit(c) && c != '-'
    ensures c !in ShowInt(n)
  {
    var t := ShowInt(n);
    if n < 0 {
      assert forall i :: 1 <= i < |t| ==> t[i] == t[1..][i - 1];
    }
  }

  /** int(s) for decimal strings: surrounding whitespace, an optional sign, then at least
      one ASCII digit; None where Python raises ValueError. */
  function ParseInt(s: string): (r: Option<int>)
  {
    var (neg, rest) := SplitSign(Strip(s));
    if rest != [] && AllDigits(rest) then
      Some(if neg then -(DigitsValue(rest) as int) else DigitsValue(rest))
    else None
  }

  lemma ParseShowInt(n: int)
    ensures ParseInt(ShowInt(n)) == Some(n)
  {
    var s := ShowInt(n);
    StripNoSpaceEnds(s);
    ShowSplitSign(n);
    if n < 0 {
      ShowNatValue(-n);
    } else {
      ShowNatValue(n);
    }
  }

  /** The sign and the digits of str(n). */
  lemma ShowSplitSign(n: int)
    ensures SplitSign(ShowInt(n)) == (n < 0, ShowNat(if n < 0 then -n else n))
  {
    var s := ShowInt(n);
    if n < 0 {
      assert s == "-" + ShowNat(-n);
      assert s[1..] == ShowNat(-n);
    } else {
      assert IsDigit(s[0]);
    }
  }

  /** The value of the digits after a decimal point: 0.d1d2... */
  function FractionValue(fp: string): (v: real)
    requires AllDigits(fp)
  {
    if fp == [] then 0.0 else ((fp[0] as int - '0' as int) as real + FractionValue(fp[1..])) / 10.0
  }

  /** The first occurrence of c is at k when s[k] is c and nothing before it is. */
  lemma FindFirst(s: string, c: char, k: nat)
    requires k < |s| && s[k] == c && c !in s[..k]
    ensures Find(s, c) == Some(k)
  {
    if k > 0 {
      assert s[1..][..k - 1] == s[..k][1..];
      FindFirst(s[1..], c, k - 1);
    }
  }

  /** The integer and fraction digits of an unsigned decimal spelling, split at the first '.'. */
  function SplitDecimal(rest: string): (r: (string, string))
    ensures '.' !in rest ==> r == (rest, "")
  {
    match Find(rest, '.')
    case None => (rest, "")
    case Some(k) => (rest[..k], rest[k + 1..])
  }

  function UnsignedDecimal(rest: string): Option<real>
  {
    var (ip, fp) := SplitDecimal(rest);
    if |ip| + |fp| >= 1 && AllDigits(ip) && AllDigits(fp) then
      Some(DigitsValue(ip) as real + FractionValue(fp))
    else None
  }

  /** float(s) for plain decimal strings: surrounding whitespace, an optional sign, digits
      with at most one '.', at least one digit in all; None where Python raises. */
  function ParseDecimal(s: string): (r: Option<real>)
  {
    var (neg, rest) := SplitSign(Strip(s));
    match UnsignedDecimal(rest)
    case None => None
    case Some(v) => Some(if neg then -v else v)
  }

  /** A decimal spelling with no surrounding whitespace and no sign reads unsigned. */
  lemma ParseDecimalUnsigned(d: string)
    requires d != [] && !IsSpace(d[0]) && !IsSpace(d[|d| - 1]) && d[0] != '-' && d[0] != '+'
    ensures ParseDecimal(d) == UnsignedDecimal(d)
  {
    StripNoSpaceEnds(d);
  }

  /** The split happens at the point that follows a point-free whole part. */
  lemma SplitDecimalAt(whole: string, frac: string)
    requires '.' !in whole
    ensures SplitDecimal(whole + "." + frac) == (whole, frac)
  {
    var dotted := whole + "." + frac;
    assert dotted[|whole|] == '.' && dotted[..|whole|] == whole;
    FindFirst(dotted, '.', |whole|);
    assert dotted[|whole| + 1..] == frac;
  }

  /** Digits, a point and digits read as the whole part plus the fraction. */
  lemma ParseDecimalOfParts(whole: string, frac: string)
    requires AllDigits(whole) && AllDigits(frac) && |whole| + |frac| >= 1
    ensures ParseDecimal(whole + "." + frac) == Some(DigitsValue(whole) as real + FractionValue(frac))
  {
    var dotted := whole + "." + frac;
    assert dotted != [] && !IsSpace(dotted[0]) && !IsSpace(dotted[|dotted| - 1])
        && dotted[0] != '-' && dotted[0] != '+' by {
      assert dotted[0] == '.' || IsDigit(dotted[0]);
      assert dotted[|dotted| - 1] == '.' || IsDigit(dotted[|dotted| - 1]);
    }
    ParseDecimalUnsigned(dotted);
    UnsignedDecimalOfParts(whole, frac);
  }

  lemma UnsignedDecimalOfParts(whole: string, frac: string)
    requires AllDigits(whole) && AllDigits(frac) && |whole| + |frac| >= 1
    ensures UnsignedDecimal(whole + "." + frac) == Some(DigitsValue(whole) as real + FractionValue(frac))
  {
    assert '.' !in whole by { assert !IsDigit('.'); }
    SplitDecimalAt(whole, frac);
    UnsignedDecimalSplit(whole + "." + frac, whole, frac);
  }

  lemma UnsignedDecimalSplit(rest: string, ip: string, fp: string)
    requires SplitDecimal(rest) == (ip, fp) && AllDigits(ip) && AllDigits(fp) && |ip| + |fp| >= 1
    ensures UnsignedDecimal(rest) == Some(DigitsValue(ip) as real + FractionValue(fp))
  {
  }

  lemma UnsignedDecimalOfDigits(digits: string)
    requires digits != [] && AllDigits(digits)
    ensures UnsignedDecimal(digits) == Some(DigitsValue(digits) as real)
  {
    assert !IsDigit('.');
    assert '.' !in digits;
    assert DigitsValue("") == 0 && FractionValue("") == 0.0;
  }

  lemma ParseDecimalOfInt(n: int)
    ensures ParseDecimal(ShowInt(n)) == Some(n as real)
  {
    var s := ShowInt(n);
    StripNoSpaceEnds(s);
    ShowSplitSign(n);
    if n < 0 {
      ShowNatValue(-n);
      UnsignedDecimalOfDigits(ShowNat(-n));
    } else {
      ShowNatValue(n);
      UnsignedDecimalOfDigits(ShowNat(n));
    }
  }

  /** A screen-text catalogue: the per-language files loaded at start-up (lang -> key ->
      text) and the built-in DEFAULT_TEXTS (key -> lang -> text). */
  datatype Catalog = Catalog(cache: map<string, map<string, string>>, defaults: map<string, map<string, string>>)
}
