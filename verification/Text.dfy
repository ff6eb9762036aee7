/** Byte strings and the C and C++ library routines the HTTP code calls on them.

    A C++ `char` is modelled by a Dafny `char`.  No definition depends on how many character values
    there are, so every theorem holds in particular for the 256 values of a byte. */
module Text {
  import opened Options

  // ---- character classes of the C locale ------------------------------------------------------

  /** isspace: blank, tab, newline, vertical tab, form feed, carriage return. */
  predicate IsSpace(c: char) {
    c == ' ' || '\t' <= c <= '\r'
  }

  lemma SpaceIs(c: char)
    ensures IsSpace(c) <==> c in [' ', '\t', '\n', 11 as char, 12 as char, '\r']
  {
  }

  predicate IsDigit(c: char) {
    '0' <= c <= '9'
  }

  /** tolower, which the C locale defines on the upper-case ASCII letters only. */
  function LowerChar(c: char): char {
    if 'A' <= c <= 'Z' then c + 32 as char else c
  }

  predicate AllSpace(s: string) {
    forall i | 0 <= i < |s| :: IsSpace(s[i])
  }

  predicate NoSpace(s: string) {
    forall i | 0 <= i < |s| :: !IsSpace(s[i])
  }

  function Lower(s: string): (r: string)
    ensures |r| == |s|
    ensures forall i | 0 <= i < |s| :: r[i] == LowerChar(s[i])
  {
    seq(|s|, i requires 0 <= i < |s| => LowerChar(s[i]))
  }

  // ---- line ends ------------------------------------------------------------------------------

  const CRLF := "\r\n"

  predicate CrlfAt(s: string, i: int) {
    0 <= i && i + 1 < |s| && s[i] == '\r' && s[i + 1] == '\n'
  }

  predicate NoCrlf(s: string) {
    forall i | 0 <= i < |s| :: !CrlfAt(s, i)
  }

  function FindCrlfFrom(s: string, start: nat): (r: Option<nat>)
    requires start <= |s|
    ensures r.Some? ==> start <= r.value && CrlfAt(s, r.value)
    ensures r.Some? ==> forall j | start <= j < r.value :: !CrlfAt(s, j)
    ensures r.None? ==> forall j | start <= j < |s| :: !CrlfAt(s, j)
    decreases |s| - start
  {
    if start == |s| then None
    else if CrlfAt(s, start) then Some(start)
    else FindCrlfFrom(s, start + 1)
  }

  /** std::search for "\r\n": the first match, or None where the source returns a null pointer. */
  function FindCrlf(s: string): (r: Option<nat>)
    ensures r.Some? ==> CrlfAt(s, r.value) && forall j | 0 <= j < r.value :: !CrlfAt(s, j)
    ensures r.None? ==> NoCrlf(s)
  {
    FindCrlfFrom(s, 0)
  }

  /** Bytes that arrive later never move a line end that has been found; one that is found only with
      them reaches past the bytes seen before, though its first half may be the last of those. */
  lemma FindCrlfExtends(s: string, t: string)
    ensures FindCrlf(s).Some? ==> FindCrlf(s + t) == FindCrlf(s)
    ensures FindCrlf(s).None? && FindCrlf(s + t).Some? ==> FindCrlf(s + t).value + 1 >= |s|
  {
    if FindCrlf(s).Some? {
      var i := FindCrlf(s).value;
      assert CrlfAt(s + t, i);
      forall j | 0 <= j < i ensures !CrlfAt(s + t, j) {
        assert !CrlfAt(s, j);
      }
    } else {
      assert forall j | 0 <= j && j + 1 < |s| :: CrlfAt(s + t, j) ==> CrlfAt(s, j);
    }
  }

  /** A line without a line end of its own is delimited exactly by the one appended to it. */
  lemma FindCrlfAfterLine(line: string, rest: string)
    requires NoCrlf(line)
    ensures FindCrlf(line + CRLF + rest) == Some(|line|)
  {
    var s := line + CRLF + rest;
    assert CrlfAt(s, |line|);
    forall j | 0 <= j < |line| ensures !CrlfAt(s, j) {
      assert !CrlfAt(line, j);
    }
  }

  lemma NoCrlfPart(s: string, lo: nat, hi: nat)
    requires NoCrlf(s) && lo <= hi <= |s|
    ensures NoCrlf(s[lo..hi])
  {
    forall i | 0 <= i < hi - lo ensures !CrlfAt(s[lo..hi], i) {
      assert !CrlfAt(s, lo + i);
    }
  }

  /** Joining around text that holds neither half of a line end cannot make one. */
  lemma NoCrlfJoin(a: string, mid: string, b: string)
    requires NoCrlf(a) && NoCrlf(b)
    requires mid != "" && '\r' !in mid && '\n' !in mid
    ensures NoCrlf(a + mid + b)
  {
    var s := a + mid + b;
    forall i | 0 <= i < |s| ensures !CrlfAt(s, i) {
      if i < |a| {
        assert !CrlfAt(a, i);
        assert i + 1 == |a| ==> s[i + 1] == mid[0];
      } else if i < |a| + |mid| {
        assert s[i] == mid[i - |a|];
      } else {
        assert !CrlfAt(b, i - |a| - |mid|);
      }
    }
  }

  // ---- searching and trimming -----------------------------------------------------------------

  /** std::string::find of one character. */
  function FindChar(s: string, c: char): (r: Option<nat>)
    ensures r.Some? ==> r.value < |s| && s[r.value] == c && c !in s[..r.value]
    ensures r.None? ==> c !in s
  {
    if s == "" then None
    else if s[0] == c then Some(0)
    else match FindChar(s[1..], c)
      case None => None
      case Some(k) => assert s[..k + 1] == [s[0]] + s[1..][..k]; Some(k + 1)
  }

  lemma FindCharFirst(a: string, c: char, b: string)
    requires c !in a
    ensures FindChar(a + [c] + b, c) == Some(|a|)
  {
    var s := a + [c] + b;
    assert s[|a|] == c;
    forall i | 0 <= i < |a| ensures s[i] != c {
      assert s[i] == a[i];
    }
    assert forall k: nat | |a| < k <= |s| :: c == s[..k][|a|];
  }

  /** s.erase(s.find_last_not_of(chars) + 1) */
  function TrimRight(s: string, chars: string): (r: string)
    ensures r <= s
    ensures r == "" || r[|r| - 1] !in chars
    ensures forall i | |r| <= i < |s| :: s[i] in chars
  {
    if s != "" && s[|s| - 1] in chars then TrimRight(s[..|s| - 1], chars) else s
  }

  /** s.erase(0, s.find_first_not_of(chars)) */
  function TrimLeft(s: string, chars: string): (r: string)
    ensures |r| <= |s| && r == s[|s| - |r|..]
    ensures r == "" || r[0] !in chars
    ensures forall i | 0 <= i < |s| - |r| :: s[i] in chars
  {
    if s != "" && s[0] in chars then TrimLeft(s[1..], chars) else s
  }

  // ---- formatted extraction -------------------------------------------------------------------

  function SkipSpaces(s: string): (r: string)
    ensures |r| <= |s| && r == s[|s| - |r|..]
    ensures r == "" || !IsSpace(r[0])
    ensures AllSpace(s[..|s| - |r|])
  {
    if s != "" && IsSpace(s[0]) then SkipSpaces(s[1..]) else s
  }

  function TokenLength(s: string): (n: nat)
    ensures n <= |s| && NoSpace(s[..n])
    ensures n < |s| ==> IsSpace(s[n])
  {
    if s == "" || IsSpace(s[0]) then 0 else 1 + TokenLength(s[1..])
  }

  /** `stream >> token`: the token is empty exactly where the source's extraction fails. */
  function Extract(s: string): (r: (string, string))
    ensures NoSpace(r.0)
    ensures |r.0| + |r.1| <= |s|
  {
    var t := SkipSpaces(s);
    var n := TokenLength(t);
    (t[..n], t[n..])
  }

  /** Every text is blanks, the token, and a rest that begins with a blank if there is one; the token is
      empty only when there is nothing but blanks. */
  lemma ExtractSplits(s: string)
    ensures var (token, rest) := Extract(s);
            var skipped := |s| - |token| - |rest|;
            && AllSpace(s[..skipped]) && NoSpace(token)
            && s[skipped..skipped + |token|] == token && s[skipped + |token|..] == rest
            && (rest == "" || IsSpace(rest[0]))
            && (token == "" ==> rest == "")
  {
    hide SkipSpaces, TokenLength, AllSpace, NoSpace;
    var t := SkipSpaces(s);
    var n := TokenLength(t);
    assert s[|s| - |t|..] == t;
    assert n < |t| ==> t[n..][0] == t[n];
  }

  /** Extraction splits off exactly the maximal run of non-space characters. */
  lemma {:induction false} ExtractToken(w: string, t: string, r: string)
    requires AllSpace(w) && NoSpace(t) && t != ""
    requires r == "" || IsSpace(r[0])
    ensures Extract(w + t + r) == (t, r)
  {
    assert w + t + r == w + (t + r);
    SkipAllSpaces(w, t + r);
    TokenLengthExact(t, r);
    hide SkipSpaces, TokenLength, AllSpace;
  }

  lemma {:induction false} SkipAllSpaces(w: string, s: string)
    requires AllSpace(w) && (s == "" || !IsSpace(s[0]))
    ensures SkipSpaces(w + s) == s
  {
    if w == "" {
      assert w + s == s;
    } else {
      assert (w + s)[1..] == w[1..] + s;
      SkipAllSpaces(w[1..], s);
    }
  }

  lemma {:induction false} TokenLengthExact(t: string, r: string)
    requires NoSpace(t) && (r == "" || IsSpace(r[0]))
    ensures TokenLength(t + r) == |t|
    ensures (t + r)[..|t|] == t && (t + r)[|t|..] == r
  {
    if t == "" {
      assert t + r == r;
    } else {
      assert (t + r)[1..] == t[1..] + r;
      TokenLengthExact(t[1..], r);
    }
  }

  // ---- decimal numbers ------------------------------------------------------------------------

  const TWO_64: nat := 0x1_0000_0000_0000_0000

  function DigitValue(c: char): nat
    requires IsDigit(c)
  {
    c as int - '0' as int
  }

  predicate AllDigits(s: string) {
    forall i | 0 <= i < |s| :: IsDigit(s[i])
  }

  function DigitsLength(s: string): (n: nat)
    ensures n <= |s| && AllDigits(s[..n])
    ensures n < |s| ==> !IsDigit(s[n])
  {
    if s == "" || !IsDigit(s[0]) then 0 else 1 + DigitsLength(s[1..])
  }

  function DigitsValue(s: string): nat
    requires AllDigits(s)
  {
    if s == "" then 0 else 10 * DigitsValue(s[..|s| - 1]) + DigitValue(s[|s| - 1])
  }

  /** std::stoull in base 10 on a 64-bit platform: leading blanks, one optional sign, the longest run
      of digits; None where it throws (no digit, or the digits exceed 64 bits).  A minus sign negates
      modulo 2^64, and anything after the digits is ignored. */
  function Stoull(s: string): (r: Option<nat>)
    ensures r.Some? ==> r.value < TWO_64
  {
    var t := SkipSpaces(s);
    var u := if t != "" && (t[0] == '+' || t[0] == '-') then t[1..] else t;
    var n := DigitsLength(u);
    if n == 0 then None
    else
      var v := DigitsValue(u[..n]);
      if v >= TWO_64 then None
      else if t[0] == '-' then Some((TWO_64 - v) % TWO_64)
      else Some(v)
  }

  function Decimal(n: nat): (s: string)
    ensures s != "" && AllDigits(s)
  {
    var d := ('0' as int + n % 10) as char;
    if n < 10 then [d] else Decimal(n / 10) + [d]
  }

  lemma {:induction false} DecimalValue(n: nat)
    ensures DigitsValue(Decimal(n)) == n
  {
    if n >= 10 {
      DecimalValue(n / 10);
      assert Decimal(n)[..|Decimal(n)| - 1] == Decimal(n / 10);
    }
  }

  lemma {:induction false} DigitsLengthExact(d: string, r: string)
    requires AllDigits(d) && (r == "" || !IsDigit(r[0]))
    ensures DigitsLength(d + r) == |d|
  {
    if d == "" {
      assert d + r == r;
    } else {
      assert (d + r)[1..] == d[1..] + r;
      DigitsLengthExact(d[1..], r);
    }
  }

  /** A text taken apart as std::stoull does: blanks, a sign or none, digits, and the rest. */
  predicate NumberParts(blanks: string, sign: string, digits: string, rest: string) {
    && AllSpace(blanks) && (sign == "" || sign == "+" || sign == "-") && AllDigits(digits)
    && (rest == "" || !IsDigit(rest[0]))
    && (sign == "" && digits == "" && rest != "" ==> !IsSpace(rest[0]) && rest[0] != '+' && rest[0] != '-')
  }

  lemma SignRead(sign: string, u: string)
    requires sign == "" || sign == "+" || sign == "-"
    requires sign == "" && u != "" ==> !IsSpace(u[0]) && u[0] != '+' && u[0] != '-'
    ensures var t := sign + u;
            && (t == "" || !IsSpace(t[0]))
            && (if t != "" && (t[0] == '+' || t[0] == '-') then t[1..] else t) == u
            && (u != "" ==> (t[0] == '-' <==> sign == "-"))
  {
    var t := sign + u;
    if sign == "" {
      assert t == u;
    } else {
      assert t[0] == sign[0] && t[1..] == u;
    }
  }

  /** Taken apart so, a text is refused without digits or beyond 64 bits; behind a minus the number is
      negated modulo 2^64. */
  lemma StoullReads(blanks: string, sign: string, digits: string, rest: string)
    requires NumberParts(blanks, sign, digits, rest)
    ensures Stoull(blanks + (sign + (digits + rest))) == SignedNumber(sign == "-", digits)
  {
    PartsRead(blanks, sign, digits, rest);
    hide *;
    StoullOf(blanks + (sign + (digits + rest)), sign + (digits + rest), digits + rest, digits);
  }

  function SignedNumber(minus: bool, digits: string): Option<nat>
    requires AllDigits(digits)
  {
    var v := DigitsValue(digits);
    if digits == "" || v >= TWO_64 then None
    else if minus then Some((TWO_64 - v) % TWO_64)
    else Some(v)
  }

  lemma PartsRead(blanks: string, sign: string, digits: string, rest: string)
    requires NumberParts(blanks, sign, digits, rest)
    ensures var u := digits + rest;
            var t := sign + u;
            && SkipSpaces(blanks + t) == t
            && u == (if t != "" && (t[0] == '+' || t[0] == '-') then t[1..] else t)
            && DigitsLength(u) == |digits| && u[..|digits|] == digits
            && (digits != "" ==> (t[0] == '-' <==> sign == "-"))
  {
    hide SkipSpaces, DigitsLength, AllSpace;
    if sign == "" {
      FirstUnsigned(digits, rest);
    }
    SignRead(sign, digits + rest);
    SkipAllSpaces(blanks, sign + (digits + rest));
    DigitsLengthExact(digits, rest);
  }

  lemma FirstUnsigned(digits: string, rest: string)
    requires NumberParts("", "", digits, rest)
    ensures var u := digits + rest; u != "" ==> !IsSpace(u[0]) && u[0] != '+' && u[0] != '-'
  {
    assert digits != "" ==> (digits + rest)[0] == digits[0];
    assert digits == "" ==> digits + rest == rest;
  }

  lemma StoullOf(s: string, t: string, u: string, digits: string)
    requires t == SkipSpaces(s) && u == (if t != "" && (t[0] == '+' || t[0] == '-') then t[1..] else t)
    requires DigitsLength(u) == |digits| && u[..|digits|] == digits
    ensures Stoull(s) == SignedNumber(t != "" && t[0] == '-', digits)
  {
    hide SkipSpaces, DigitsLength, DigitsValue;
  }

  /** Every text can be taken apart so. */
  lemma NumberSplits(s: string) returns (blanks: string, sign: string, digits: string, rest: string)
    ensures NumberParts(blanks, sign, digits, rest) && s == blanks + (sign + (digits + rest))
  {
    hide SkipSpaces, DigitsLength, NumberParts, AllDigits, AllSpace;
    var t := SkipSpaces(s);
    blanks := s[..|s| - |t|];
    sign := if t != "" && (t[0] == '+' || t[0] == '-') then t[..1] else "";
    var u := t[|sign|..];
    digits, rest := u[..DigitsLength(u)], u[DigitsLength(u)..];
    assert u == digits + rest;
    assert t == sign + u;
    assert s == blanks + t;
    PartsFound(blanks, t, sign, u, digits, rest);
  }

  lemma PartsFound(blanks: string, t: string, sign: string, u: string, digits: string, rest: string)
    requires AllSpace(blanks) && (t == "" || !IsSpace(t[0]))
    requires sign == (if t != "" && (t[0] == '+' || t[0] == '-') then t[..1] else "") && t == sign + u
    requires AllDigits(digits) && u == digits + rest && (rest == "" || !IsDigit(rest[0]))
    ensures NumberParts(blanks, sign, digits, rest)
  {
    hide AllDigits, AllSpace;
    assert sign != "" ==> sign == "+" || sign == "-";
    if sign == "" && digits == "" {
      assert t == u == rest;
    }
  }

  /** Decimal text reads back as its number when that fits 64 bits and is refused otherwise; what
      follows the digits does not matter. */
  lemma StoullDecimal(n: nat, junk: string)
    requires junk == "" || !IsDigit(junk[0])
    ensures Stoull(Decimal(n) + junk) == if n < 0x1_0000_0000_0000_0000 then Some(n) else None
  {
    hide Stoull, Decimal, DigitsValue;
    StoullReads("", "", Decimal(n), junk);
    DecimalValue(n);
    assert "" + ("" + (Decimal(n) + junk)) == Decimal(n) + junk;
  }

  /** Two numbers never share their decimal text. */
  lemma DecimalInjective(m: nat, n: nat)
    requires Decimal(m) == Decimal(n)
    ensures m == n
  {
    DecimalValue(m);
    DecimalValue(n);
  }
}
