/** memcached-1.4.5/util.c: safe_strtoull, and the decimal text of 64-bit counters. */
module Numbers {
  datatype Option<T> = None | Some(value: T)

  const TWO_64: nat := 0x1_0000_0000_0000_0000
  const TWO_63: nat := 0x8000_0000_0000_0000

  // ---------------------------------------------------------------- "%llu"

  function Digit(d: nat): char
    requires d < 10
  {
    "0123456789"[d]
  }

  function Dec(n: nat): (s: string)
    ensures s != []
  {
    if n < 10 then [Digit(n)] else Dec(n / 10) + [Digit(n % 10)]
  }

  // ---------------------------------------------------------------- strtoull

  /** isspace */
  predicate IsSpace(ch: char) { ch == ' ' || '\t' <= ch <= '\r' }
  predicate IsDigit(ch: char) { '0' <= ch <= '9' }

  function CountSpace(s: string): (n: nat)
    ensures n <= |s|
  {
    if s != [] && IsSpace(s[0]) then 1 + CountSpace(s[1..]) else 0
  }

  function CountDigits(s: string): (n: nat)
    ensures n <= |s|
    ensures forall i :: 0 <= i < n ==> IsDigit(s[i])
  {
    if s != [] && IsDigit(s[0]) then 1 + CountDigits(s[1..]) else 0
  }

  function Number(s: string): nat
    requires forall i :: 0 <= i < |s| ==> IsDigit(s[i])
  {
    if s == [] then 0 else 10 * Number(s[..|s| - 1]) + DigitValue(s[|s| - 1])
  }

  function DigitValue(ch: char): nat
    requires IsDigit(ch)
  {
    ch as int - '0' as int
  }

  /** The characters before the first NUL. */
  function CString(s: string): (t: string)
    ensures t <= s && '\0' !in t
  {
    if s == [] || s[0] == '\0' then [] else [s[0]] + CString(s[1..])
  }

  /** Number is positional notation: zeros in front do not count, and neither does how a text is cut. */
  lemma {:induction false} NumberCut(a: string, b: string)
    requires forall i :: 0 <= i < |a| ==> IsDigit(a[i])
    requires forall i :: 0 <= i < |b| ==> IsDigit(b[i])
    ensures Number(a + b) == Number(a) * Power(|b|) + Number(b) && Number(b) < Power(|b|)
  {
    hide Number, Power, DigitValue;
    NumberEmpty();
    if b == [] {
      assert a + b == a;
    } else {
      var b', ch := b[..|b| - 1], b[|b| - 1];
      NumberCut(a, b');
      assert a + b == (a + b') + [ch] && b == b' + [ch];
      NumberSnoc(a + b', ch);
      NumberSnoc(b', ch);
      TenTimes(Number(a), Power(|b'|));
    }
  }

  lemma NumberEmpty()
    ensures Number([]) == 0 && Power(0) == 1
  {
  }

  lemma NumberSnoc(s: string, ch: char)
    requires (forall i :: 0 <= i < |s| ==> IsDigit(s[i])) && IsDigit(ch)
    ensures Number(s + [ch]) == 10 * Number(s) + DigitValue(ch) && DigitValue(ch) < 10
    ensures Power(|s + [ch]|) == 10 * Power(|s|)
  {
    assert (s + [ch])[..|s|] == s;
  }

  lemma TenTimes(a: nat, p: nat)
    ensures a * (10 * p) == 10 * (a * p)
  {
  }

  function Power(k: nat): nat { if k == 0 then 1 else 10 * Power(k - 1) }

  /** What strtoull finds: where it stops, and the value; None for ERANGE. Without digits it stops where it began. */
  function Strtoull(s: string): (r: Option<(nat, nat)>)
    ensures r.Some? ==> r.value.0 <= |s| && r.value.1 < TWO_64
  {
    var i := CountSpace(s);
    var signed := i < |s| && (s[i] == '-' || s[i] == '+');
    var j := if signed then i + 1 else i;
    var n := CountDigits(s[j..]);
    if n == 0 then Some((0, 0))
    else
      var v := Number(s[j..][..n]);
      if v >= TWO_64 then None
      else Some((j + n, if signed && s[i] == '-' then (TWO_64 - v) % TWO_64 else v))
  }

  /** safe_strtoull */
  function ParseU64(text: string): (r: Option<nat>)
    ensures r.Some? ==> r.value < TWO_64
  {
    var s := CString(text);
    match Strtoull(s)
    case None => None
    case Some((end, v)) =>
      if (if end < |s| then IsSpace(s[end]) else end != 0) && (v >= TWO_63 ==> '-' !in s) then Some(v) else None
  }

  // ---------------------------------------------------------------- reading back what was printed

  lemma {:induction false} DecDigits(n: nat)
    ensures forall i :: 0 <= i < |Dec(n)| ==> IsDigit(Dec(n)[i])
    ensures Number(Dec(n)) == n
  {
    if n >= 10 {
      DecDigits(n / 10);
      assert Dec(n)[..|Dec(n)| - 1] == Dec(n / 10);
    } else {
      assert Dec(n)[..0] == [];
    }
  }

  lemma {:induction false} DigitRun(d: string, rest: string)
    requires forall i :: 0 <= i < |d| ==> IsDigit(d[i])
    requires rest != [] ==> !IsDigit(rest[0])
    ensures CountDigits(d + rest) == |d|
  {
    if d == [] {
      assert d + rest == rest;
    } else {
      assert (d + rest)[1..] == d[1..] + rest;
      DigitRun(d[1..], rest);
    }
  }

  lemma {:induction false} NoNul(s: string)
    requires '\0' !in s
    ensures CString(s) == s
  {
    if s != [] {
      assert forall i :: 0 <= i < |s| ==> s[i] in s;
      NoNul(s[1..]);
    }
  }

  function Spaces(n: nat): (s: string)
    ensures |s| == n && forall i :: 0 <= i < n ==> s[i] == ' '
  {
    seq(n, i => ' ')
  }

  /** A counter is stored as its decimal text, blanks and a line end. */
  function CounterText(n: nat, pad: nat): string { Dec(n) + Spaces(pad) + "\r\n" }

  /** Digits that end at a blank are the number strtoull finds. */
  lemma StrtoullDigits(d: string, rest: string)
    requires d != [] && (forall i :: 0 <= i < |d| ==> IsDigit(d[i]))
    requires rest != [] && IsSpace(rest[0]) && Number(d) < TWO_64
    ensures Strtoull(d + rest) == Some((|d|, Number(d)))
  {
    hide Number;
    var s := d + rest;
    DigitRun(d, rest);
    assert s[0] == d[0] && IsDigit(d[0]) && CountSpace(s) == 0;
    assert s[0..] == s && s[..|d|] == d;
  }

  lemma CounterChars(n: nat, pad: nat)
    ensures '\0' !in CounterText(n, pad) && '-' !in CounterText(n, pad)
  {
    DecDigits(n);
    var s := CounterText(n, pad);
    assert forall i :: 0 <= i < |s| ==> s[i] != '\0' && s[i] != '-';
  }

  /** A counter reads back as what was written, however it is padded. */
  lemma CounterReadsBack(n: nat, pad: nat)
    requires n < TWO_64
    ensures ParseU64(CounterText(n, pad)) == Some(n)
  {
    hide Number, Dec, Strtoull, CString;
    var d, rest := Dec(n), Spaces(pad) + "\r\n";
    var s := CounterText(n, pad);
    assert s == d + rest;
    DecDigits(n);
    CounterChars(n, pad);
    NoNul(s);
    StrtoullDigits(d, rest);
    assert s[|d|] == rest[0];
  }

  // ---------------------------------------------------------------- do_add_delta's arithmetic

  /** incr wraps around at 64 bits, decr stops at zero. */
  function AddDelta(value: nat, incr: bool, delta: nat): (r: nat)
    ensures value < TWO_64 && delta < TWO_64 ==> r < TWO_64
  {
    if incr then (value + delta) % TWO_64 else if delta > value then 0 else value - delta
  }

  function Total(ds: seq<nat>): nat { if ds == [] then 0 else Total(ds[..|ds| - 1]) + ds[|ds| - 1] }

  function Incremented(value: nat, ds: seq<nat>): nat
  {
    if ds == [] then value else AddDelta(Incremented(value, ds[..|ds| - 1]), true, ds[|ds| - 1])
  }

  lemma AddWraps(a: nat, b: nat)
    ensures (a % TWO_64 + b) % TWO_64 == (a + b) % TWO_64
  {
  }

  /** However the increments of a run are cut up, the counter is their sum modulo 2^64. */
  lemma {:induction false} IncrementsAdd(value: nat, ds: seq<nat>)
    requires value < TWO_64
    ensures Incremented(value, ds) == (value + Total(ds)) % TWO_64
  {
    if ds != [] {
      IncrementsAdd(value, ds[..|ds| - 1]);
      AddWraps(value + Total(ds[..|ds| - 1]), ds[|ds| - 1]);
    }
  }

  lemma {:induction false} DecLength(n: nat, k: nat)
    requires k > 0 && n < Power(k)
    ensures |Dec(n)| <= k
  {
    if n >= 10 {
      DecLength(n / 10, k - 1);
    }
  }

  /** Every counter fits the reply buffer of 24 bytes with its terminator. */
  lemma CounterFitsBuffer(n: nat)
    requires n < TWO_64
    ensures |Dec(n)| <= 20
  {
    PowerIs();
    DecLength(n, 20);
  }

  lemma PowerIs()
    ensures Power(20) == 100_000_000_000_000_000_000 && Power(19) == 10_000_000_000_000_000_000
    ensures Power(18) == 1_000_000_000_000_000_000
  {
    assert Power(5) == 100_000;
    assert Power(10) == 10_000_000_000;
    assert Power(15) == 1_000_000_000_000_000;
  }

  // ---------------------------------------------------------------- which texts are numbers

  /** `text` is blanks, an optional sign, digits and something else; the blanks and the digits are all there are. */
  ghost predicate Spelled(text: string, blanks: string, sign: string, digits: string, rest: string)
  {
    && text == blanks + sign + digits + rest && (sign == "" || sign == "+" || sign == "-")
    && (forall i :: 0 <= i < |blanks| ==> blanks[i] == ' ' || '\t' <= blanks[i] <= '\r')
    && (forall i :: 0 <= i < |digits| ==> '0' <= digits[i] <= '9')
    && (rest != "" ==> !('0' <= rest[0] <= '9'))
    && (sign + digits == "" && rest != "" ==> rest[0] !in " +-" && !('\t' <= rest[0] <= '\r'))
  }

  lemma {:induction false} SpaceRun(blanks: string, rest: string)
    requires forall i :: 0 <= i < |blanks| ==> IsSpace(blanks[i])
    requires rest != [] ==> !IsSpace(rest[0])
    ensures CountSpace(blanks + rest) == |blanks|
  {
    if blanks == [] {
      assert blanks + rest == rest;
    } else {
      assert (blanks + rest)[1..] == blanks[1..] + rest;
      SpaceRun(blanks[1..], rest);
    }
  }

  /** What strtoull makes of each part. */
  lemma StrtoullIs(text: string, blanks: string, sign: string, digits: string, rest: string)
    requires Spelled(text, blanks, sign, digits, rest)
    ensures Strtoull(text) ==
      if digits == "" then Some((0, 0))
      else if Number(digits) >= TWO_64 then None
      else Some((|blanks| + |sign| + |digits|,
                 if sign == "-" then (TWO_64 - Number(digits)) % TWO_64 else Number(digits)))
  {
    hide Number, CountSpace, CountDigits, Spelled;
    var tail := SpelledTail(text, blanks, sign, digits, rest);
    SpaceRun(blanks, tail);
    DigitRun(digits, rest);
    var i := |blanks|;
    var j := i + |sign|;
    assert text[j..][..|digits|] == digits;
  }

  lemma SpelledTail(text: string, blanks: string, sign: string, digits: string, rest: string) returns (tail: string)
    requires Spelled(text, blanks, sign, digits, rest)
    ensures text == blanks + tail && (tail != "" ==> !IsSpace(tail[0]))
    ensures forall i :: 0 <= i < |blanks| ==> IsSpace(blanks[i])
    ensures forall i :: 0 <= i < |digits| ==> IsDigit(digits[i])
    ensures (rest != "" ==> !IsDigit(rest[0])) && text[|blanks| + |sign|..] == digits + rest
    ensures sign == (if tail != "" && (tail[0] == '-' || tail[0] == '+') then [tail[0]] else "")
  {
    tail := sign + digits + rest;
    assert text[|blanks| + |sign|..] == digits + rest;
    if sign == "" && digits != "" { assert tail[0] == digits[0]; }
    if sign == "" && digits == "" && rest != "" { assert tail[0] == rest[0]; }
  }

  /** Which texts safe_strtoull takes for numbers. Without digits it takes a text that begins with a blank for 0, and
      no other. Else what follows must be a blank or the end, the number must be below 2^64, and a text with a minus
      sign in it must come out below 2^63. */
  lemma Parses(text: string, blanks: string, sign: string, digits: string, rest: string)
    requires Spelled(text, blanks, sign, digits, rest) && '\0' !in text
    ensures digits == "" ==> ParseU64(text) == if blanks != "" then Some(0) else None
    ensures digits != "" ==>
      var v := if sign == "-" then (TWO_64 - Number(digits)) % TWO_64 else Number(digits);
      ParseU64(text) ==
        if Number(digits) < TWO_64 && (rest == "" || IsSpace(rest[0])) && (v < TWO_63 || '-' !in text)
        then Some(v) else None
  {
    hide Number, Strtoull, CString;
    NoNul(text);
    StrtoullIs(text, blanks, sign, digits, rest);
    var end := |blanks| + |sign| + |digits|;
    assert rest != "" ==> text[end] == rest[0];
    assert text != "" && digits == "" ==> IsSpace(text[0]) == (blanks != "");
  }

  /** A text ends at its first NUL. */
  lemma ParsesBeforeNul(text: string, more: string)
    requires '\0' !in text
    ensures ParseU64(text + ['\0'] + more) == ParseU64(text)
  {
    CutAtNul(text, more);
    NoNul(text);
  }

  lemma {:induction false} CutAtNul(text: string, more: string)
    requires '\0' !in text
    ensures CString(text + ['\0'] + more) == text
  {
    var s := text + ['\0'] + more;
    if text != [] {
      assert text[0] in text && s[1..] == text[1..] + ['\0'] + more;
      CutAtNul(text[1..], more);
    }
  }

  /** Every text is spelled in one way. */
  lemma Spelling(text: string) returns (blanks: string, sign: string, digits: string, rest: string)
    ensures Spelled(text, blanks, sign, digits, rest)
  {
    hide CountSpace, CountDigits, Spelled;
    var i := CountSpace(text);
    SpacesAre(text);
    blanks := text[..i];
    sign := if i < |text| && (text[i] == '-' || text[i] == '+') then [text[i]] else "";
    var tail := text[i + |sign|..];
    DigitsEnd(tail);
    digits, rest := tail[..CountDigits(tail)], tail[CountDigits(tail)..];
    assert text == blanks + sign + tail && tail == digits + rest;
    SpelledSo(text, i, sign, tail, CountDigits(tail));
  }

  lemma SpelledSo(text: string, i: nat, sign: string, tail: string, n: nat)
    requires i <= |text| && n <= |tail| && text == text[..i] + sign + tail
    requires (forall j :: 0 <= j < i ==> IsSpace(text[j])) && (i < |text| ==> !IsSpace(text[i]))
    requires sign == if i < |text| && (text[i] == '-' || text[i] == '+') then [text[i]] else ""
    requires (forall j :: 0 <= j < n ==> IsDigit(tail[j])) && (n < |tail| ==> !IsDigit(tail[n]))
    ensures Spelled(text, text[..i], sign, tail[..n], tail[n..])
  {
    assert tail == tail[..n] + tail[n..];
    assert text == text[..i] + sign + tail[..n] + tail[n..];
    if sign + tail[..n] == "" && tail[n..] != "" { assert tail[n..][0] == text[i]; }
  }

  lemma {:induction false} SpacesAre(s: string)
    ensures forall i :: 0 <= i < CountSpace(s) ==> IsSpace(s[i])
    ensures CountSpace(s) < |s| ==> !IsSpace(s[CountSpace(s)])
  {
    if s != [] && IsSpace(s[0]) {
      SpacesAre(s[1..]);
      forall i | 0 <= i < CountSpace(s) ensures IsSpace(s[i]) { if i > 0 { assert s[i] == s[1..][i - 1]; } }
    }
  }

  lemma {:induction false} DigitsEnd(s: string)
    ensures forall i :: 0 <= i < CountDigits(s) ==> IsDigit(s[i])
    ensures CountDigits(s) < |s| ==> !IsDigit(s[CountDigits(s)])
  {
    if s != [] && IsDigit(s[0]) {
      DigitsEnd(s[1..]);
    }
  }

  // ---------------------------------------------------------------- a smaller number needs no more room

  lemma {:induction false} DecMonotone(a: nat, b: nat)
    requires a <= b
    ensures |Dec(a)| <= |Dec(b)|
  {
    if a >= 10 {
      DecMonotone(a / 10, b / 10);
    }
  }

  lemma ShortestText(digits: string)
    requires digits != "" && forall i :: 0 <= i < |digits| ==> IsDigit(digits[i])
    ensures |Dec(Number(digits))| <= |digits|
  {
    NumberCut("", digits);
    assert "" + digits == digits;
    DecLength(Number(digits), |digits|);
  }

  /** The number in a text that ends a line, and is not empty, fits in its place. */
  lemma ParsedFits(text: string)
    requires |text| > 2 && text[|text| - 2..] == "\r\n" && ParseU64(text).Some?
    ensures |Dec(ParseU64(text).value)| + 2 <= |text|
  {
    hide Number, Dec;
    var s := CString(text);
    var blanks, sign, digits, rest := Spelling(s);
    StrtoullIs(s, blanks, sign, digits, rest);
    var v := ParseU64(text).value;
    assert text[|text| - 2] == text[|text| - 2..][0] && text[|text| - 1] == text[|text| - 2..][1];
    if digits == "" {
      DecLength(0, 1);
    } else {
      var j := |blanks| + |sign|;
      assert forall i :: 0 <= i < |digits| ==> text[j + i] == digits[i];
      assert j + |digits| <= |text| - 2;
      NoWider(digits, sign == "-", v);
    }
  }

  lemma NoWider(digits: string, minus: bool, v: nat)
    requires digits != "" && (forall i :: 0 <= i < |digits| ==> IsDigit(digits[i])) && Number(digits) < TWO_64
    requires v == if minus then (TWO_64 - Number(digits)) % TWO_64 else Number(digits)
    requires minus ==> v < TWO_63
    ensures |Dec(v)| <= |digits|
  {
    hide Dec, Number, Power;
    if minus && Number(digits) > 0 {
      NumberCut("", digits);
      assert "" + digits == digits;
      PowerIs();
      LongEnough(|digits|);
      DecLength(v, 19);
    } else {
      ShortestText(digits);
    }
  }

  lemma LongEnough(k: nat)
    ensures Power(k) > TWO_63 ==> k >= 19
  {
    if k < 19 {
      PowerIs();
      PowerGrows(k, 18);
    }
  }

  lemma {:induction false} PowerGrows(a: nat, b: nat)
    requires a <= b
    ensures Power(a) <= Power(b)
  {
    if a < b { PowerGrows(a, b - 1); }
  }
}
