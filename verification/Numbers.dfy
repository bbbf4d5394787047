/** Number formatting: PrintNum() of print.c, and itoa(), itohex(), atoi(), reverse() and strlen() of util.c, in
    place over character buffers. */
module Numbers {
  import opened Seqs

  const U32: nat := 0x1_0000_0000
  const I31: int := 0x8000_0000

  // ---------- what a number looks like ----------

  predicate Base(base: nat) { 2 <= base <= 36 }

  function Digit(d: nat, upcase: bool): char
    requires d < 36
  {
    if d <= 9 then '0' + d as char else if upcase then 'A' + (d - 10) as char else 'a' + (d - 10) as char
  }

  /** Most significant digit first, without leading zeros. */
  function Text(u: nat, base: nat, upcase: bool): (s: string)
    requires Base(base)
    ensures s != []
    decreases u
  {
    if u < base then [Digit(u, upcase)]
    else
      DivShrinks(u, base);
      Text(u / base, base, upcase) + [Digit(u % base, upcase)]
  }

  lemma QuotientPositive(u: nat, base: nat)
    requires 0 < base <= u
    ensures 0 < u / base
  {
    assert u == u / base * base + u % base;
    var q := u / base;
    if q <= 0 { MulMonotone(q, 0, base); }
  }

  lemma DivShrinks(u: nat, base: nat)
    requires Base(base)
    ensures u == u / base * base + u % base && 0 <= u % base < base
    ensures base <= u ==> 0 < u / base < u
    ensures u < base ==> u / base == 0 && u % base == u
  {
    var q := u / base;
    assert u == q * base + u % base;
    if q < 0 { MulMonotone(q, -1, base); }
    if 0 < q { MulMonotone(1, q, base); }
    if base <= u {
      QuotientPositive(u, base);
      MulMonotone(2, base, q);
      assert base * q == q * base;
    }
  }

  function DigitValue(c: char): nat {
    if '0' <= c <= '9' then (c - '0') as nat
    else if 'A' <= c <= 'Z' then (c - 'A') as nat + 10
    else if 'a' <= c <= 'z' then (c - 'a') as nat + 10
    else 0
  }

  /** Reading digits, as a reader of base `base` does. */
  function Value(s: string, base: nat): nat {
    if s == [] then 0 else Value(s[..|s| - 1], base) * base + DigitValue(s[|s| - 1])
  }

  lemma DigitReadsBack(d: nat, upcase: bool)
    requires d < 36
    ensures DigitValue(Digit(d, upcase)) == d
    ensures Digit(d, upcase) == '0' <==> d == 0
  {
  }

  lemma ValueAppend(s: string, c: char, base: nat)
    ensures Value(s + [c], base) == Value(s, base) * base + DigitValue(c)
  {
    assert (s + [c])[..|s|] == s;
  }

  /** Reading the digits back gives the number. */
  lemma {:induction false} ReadsBack(u: nat, base: nat, upcase: bool)
    requires Base(base)
    ensures Value(Text(u, base, upcase), base) == u
    decreases u
  {
    DivShrinks(u, base);
    DigitReadsBack(u % base, upcase);
    if u < base {
      ValueAppend([], Digit(u, upcase), base);
      assert [] + [Digit(u, upcase)] == Text(u, base, upcase);
    } else {
      ReadsBack(u / base, base, upcase);
      ValueAppend(Text(u / base, base, upcase), Digit(u % base, upcase), base);
    }
  }

  lemma {:induction false} NoLeadingZero(u: nat, base: nat, upcase: bool)
    requires Base(base) && 0 < u
    ensures Text(u, base, upcase)[0] != '0'
    decreases u
  {
    DivShrinks(u, base);
    if u >= base { NoLeadingZero(u / base, base, upcase); } else { DigitReadsBack(u, upcase); }
  }

  // ---------- reversing ----------

  function Reverse(s: string): (r: string)
    ensures |r| == |s|
  {
    if s == [] then [] else Reverse(s[1..]) + [s[0]]
  }

  lemma {:induction false} ReverseAt(s: string, k: nat)
    requires k < |s|
    ensures Reverse(s)[k] == s[|s| - 1 - k]
  {
    if k < |s| - 1 { ReverseAt(s[1..], k); }
  }

  lemma IsReversed(s: string, r: string)
    requires |r| == |s| && forall k :: 0 <= k < |s| ==> r[k] == s[|s| - 1 - k]
    ensures r == Reverse(s)
  {
    forall k: nat | k < |s| ensures r[k] == Reverse(s)[k] { ReverseAt(s, k); }
  }

  lemma ReverseAppend(s: string, c: char)
    ensures Reverse(s + [c]) == [c] + Reverse(s)
  {
    var r := Reverse(s + [c]);
    forall k | 0 <= k < |r| ensures r[k] == ([c] + Reverse(s))[k] {
      ReverseAt(s + [c], k);
      if k > 0 { ReverseAt(s, k - 1); }
    }
  }

  /** The swapping loop of reverse() and of PrintNum(). */
  method ReversePrefix(s: array<char>, n: nat)
    requires n <= s.Length
    modifies s
    ensures s[..n] == Reverse(old(s[..n])) && s[n..] == old(s[n..])
  {
    var i, j := 0, n - 1;
    while i < j
      invariant 0 <= i && i + j == n - 1 && 2 * i <= n
      invariant forall k :: 0 <= k < i ==> s[k] == old(s[n - 1 - k]) && s[n - 1 - k] == old(s[k])
      invariant forall k :: i <= k <= j ==> s[k] == old(s[k])
      invariant forall k :: n <= k < s.Length ==> s[k] == old(s[k])
      decreases j - i
    {
      s[i], s[j] := s[j], s[i];
      i, j := i + 1, j - 1;
    }
    IsReversed(old(s[..n]), s[..n]);
  }

  // ---------- digits, least significant first ----------

  lemma TextUnfolds(u: nat, base: nat, upcase: bool)
    requires Base(base)
    ensures 0 <= u % base < base && u / base >= 0 && (u / base != 0 ==> u / base < u)
    ensures Text(u, base, upcase)
         == (if u / base == 0 then [] else Text(u / base, base, upcase)) + [Digit(u % base, upcase)]
  {
    DivShrinks(u, base);
  }

  lemma TextStep(u: nat, base: nat, upcase: bool, acc: string)
    requires Base(base)
    ensures 0 <= u % base < base <= 36 && u / base >= 0 && (u / base != 0 ==> u / base < u)
    ensures Text(u, base, upcase) + Reverse(acc)
         == (if u / base == 0 then [] else Text(u / base, base, upcase)) + Reverse(acc + [Digit(u % base, upcase)])
  {
    TextUnfolds(u, base, upcase);
    ReverseAppend(acc, Digit(u % base, upcase));
    Regroup(if u / base == 0 then [] else Text(u / base, base, upcase), Digit(u % base, upcase), Reverse(acc));
  }

  lemma Regroup(a: string, c: char, b: string)
    ensures (a + [c]) + b == a + ([c] + b)
  {
  }

  /** The do-while loop that PrintNum(), itoa() and itohex() share. */
  method EmitDigits(buf: array<char>, number: nat, base: nat, upcase: bool) returns (n: nat)
    requires Base(base) && |Text(number, base, upcase)| <= buf.Length
    modifies buf
    ensures n == |Text(number, base, upcase)| && Reverse(buf[..n]) == Text(number, base, upcase)
    ensures forall k :: n <= k < buf.Length ==> buf[k] == old(buf[k])
  {
    ghost var text := Text(number, base, upcase);
    ghost var done: string := [];
    var u: nat := number;
    n := 0;
    var more := true;
    while more
      invariant n <= buf.Length && done == buf[..n]
      invariant forall k :: n <= k < buf.Length ==> buf[k] == old(buf[k])
      invariant text == (if more then Text(u, base, upcase) else []) + Reverse(done)
      decreases more, u
    {
      assert n < |text|;
      TextStep(u, base, upcase, done);
      var c := Digit(u % base, upcase);
      buf[n] := c;
      n := n + 1;
      done := done + [c];
      u := u / base;
      more := u != 0;
    }
  }

  // ---------- PrintNum ----------

  function Repeat(c: char, n: int): (s: string)
    ensures |s| == if n < 0 then 0 else n
  {
    if n <= 0 then [] else Repeat(c, n - 1) + [c]
  }

  function Max(a: int, b: int): int { if a < b then b else a }

  /** The documented layout: blanks on the right when left adjusted; otherwise padding on the left, where zeros go
      between the sign and the digits and anything else before the sign. */
  function Formatted(u: nat, base: nat, negFlag: bool, length: int, ladjust: bool, padc: char, upcase: bool): string
    requires Base(base)
  {
    var digits := Text(u, base, upcase);
    var sign := if negFlag then "-" else "";
    var pad := length - |sign + digits|;
    if ladjust then sign + digits + Repeat(' ', pad)
    else if negFlag && padc == '0' then sign + Repeat('0', pad) + digits
    else Repeat(padc, pad) + sign + digits
  }

  lemma {:induction false} RepeatAt(c: char, n: nat, k: nat)
    requires k < n
    ensures Repeat(c, n)[k] == c
  {
    if k < n - 1 { RepeatAt(c, n - 1, k); }
  }

  /** for (i = from; i < to; i++) buf[i] = c; */
  method Fill(buf: array<char>, from: nat, to: int, c: char)
    requires from <= buf.Length && to <= buf.Length
    modifies buf
    ensures to <= from ==> buf[..] == old(buf[..])
    ensures from < to ==> buf[..] == old(buf[..from]) + Repeat(c, to - from) + old(buf[to..])
  {
    var i: int := from;
    while i < to
      invariant from <= i && (from <= to ==> i <= to) && (to < from ==> i == from)
      invariant forall k :: from <= k < i ==> buf[k] == c
      invariant forall k :: 0 <= k < buf.Length && !(from <= k < i) ==> buf[k] == old(buf[k])
    {
      buf[i] := c;
      i := i + 1;
    }
    if from < to {
      var n: nat := to - from;
      forall k: nat | k < n ensures Repeat(c, n)[k] == c { RepeatAt(c, n, k); }
    }
  }

  lemma {:induction false} ReverseJoin(a: string, b: string)
    ensures Reverse(a + b) == Reverse(b) + Reverse(a)
  {
    if b == [] {
      assert a + b == a;
    } else {
      var n := |b| - 1;
      assert a + b == (a + b[..n]) + [b[n]];
      ReverseAppend(a + b[..n], b[n]);
      ReverseJoin(a, b[..n]);
      assert b == b[..n] + [b[n]];
      ReverseAppend(b[..n], b[n]);
    }
  }

  lemma {:induction false} ReverseRepeat(c: char, n: int)
    ensures Reverse(Repeat(c, n)) == Repeat(c, n)
  {
    if 0 < n {
      var k: nat := n;
      forall i: nat | i < k ensures Reverse(Repeat(c, k))[i] == Repeat(c, k)[i] {
        ReverseAt(Repeat(c, k), i);
        RepeatAt(c, k, i);
        RepeatAt(c, k, k - 1 - i);
      }
    }
  }

  /** The number fills the field it is given, and overflows it only to show all its digits. */
  lemma FormattedLength(u: nat, base: nat, negFlag: bool, length: int, ladjust: bool, padc: char, upcase: bool)
    requires Base(base)
    ensures |Formatted(u, base, negFlag, length, ladjust, padc, upcase)|
         == Max(length, (if negFlag then 1 else 0) + |Text(u, base, upcase)|)
  {
  }

  lemma {:induction false} ZeroesInFront(n: int, s: string, base: nat)
    ensures Value(Repeat('0', n) + s, base) == Value(s, base)
    decreases |s| + if n < 0 then 0 else n
  {
    if s != [] {
      var head, last := s[..|s| - 1], s[|s| - 1];
      assert s == head + [last] && Repeat('0', n) + s == (Repeat('0', n) + head) + [last];
      ValueAppend(head, last, base);
      ValueAppend(Repeat('0', n) + head, last, base);
      ZeroesInFront(n, head, base);
    } else if 0 < n {
      ZeroesInFront(n - 1, [], base);
      assert Repeat('0', n - 1) + [] == Repeat('0', n - 1);
      ValueAppend(Repeat('0', n - 1), '0', base);
      assert Repeat('0', n) + s == Repeat('0', n);
    }
  }

  function Unsigned(f: string, negFlag: bool): string { if negFlag && f != [] then f[1..] else f }

  lemma ZeroField(u: nat, base: nat, negFlag: bool, length: int, upcase: bool) returns (pad: int)
    requires Base(base)
    ensures var f := Formatted(u, base, negFlag, length, false, '0', upcase);
            (negFlag ==> f != [] && f[0] == '-') && Unsigned(f, negFlag) == Repeat('0', pad) + Text(u, base, upcase)
  {
    var digits := Text(u, base, upcase);
    if negFlag {
      pad := length - |"-" + digits|;
      assert Formatted(u, base, true, length, false, '0', upcase) == "-" + (Repeat('0', pad) + digits);
    } else {
      pad := length - |"" + digits|;
      assert Formatted(u, base, false, length, false, '0', upcase) == Repeat('0', pad) + digits;
    }
  }

  /** A field padded with zeros reads back as the number, whatever its width, sign aside. */
  lemma PaddedReadsBack(u: nat, base: nat, negFlag: bool, length: int, upcase: bool)
    requires Base(base)
    ensures var f := Formatted(u, base, negFlag, length, false, '0', upcase);
            (negFlag ==> f != [] && f[0] == '-') && Value(Unsigned(f, negFlag), base) == u
  {
    var pad := ZeroField(u, base, negFlag, length, upcase);
    ZeroesInFront(pad, Text(u, base, upcase), base);
    ReadsBack(u, base, upcase);
  }

  lemma {:induction false} RepeatIsAll(c: char, n: int)
    ensures forall k :: 0 <= k < |Repeat(c, n)| ==> Repeat(c, n)[k] == c
  {
    if n > 0 { RepeatIsAll(c, n - 1); }
  }

  function Signed(u: nat, base: nat, negFlag: bool, upcase: bool): string
    requires Base(base)
  {
    (if negFlag then "-" else "") + Text(u, base, upcase)
  }

  /** A left adjusted field shows sign and digits first, and then only blanks, whatever the padding asked for. */
  lemma LeftFieldShows(u: nat, base: nat, negFlag: bool, length: int, padc: char, upcase: bool)
    requires Base(base)
    ensures var f, shown := Formatted(u, base, negFlag, length, true, padc, upcase), Signed(u, base, negFlag, upcase);
            shown <= f && forall k :: |shown| <= k < |f| ==> f[k] == ' '
  {
    var shown := Signed(u, base, negFlag, upcase);
    RepeatIsAll(' ', length - |shown|);
    assert Formatted(u, base, negFlag, length, true, padc, upcase) == shown + Repeat(' ', length - |shown|);
  }

  /** A negative field padded with zeros shows the sign, only zeros, and the digits last. */
  lemma ZeroFieldShows(u: nat, base: nat, length: int, upcase: bool)
    requires Base(base)
    ensures var f, digits := Formatted(u, base, true, length, false, '0', upcase), Text(u, base, upcase);
            && |digits| < |f| && f[0] == '-' && f[|f| - |digits|..] == digits
            && forall k :: 1 <= k < |f| - |digits| ==> f[k] == '0'
  {
    var digits := Text(u, base, upcase);
    var zeros := Repeat('0', length - |"-" + digits|);
    RepeatIsAll('0', length - |"-" + digits|);
    assert Formatted(u, base, true, length, false, '0', upcase) == ("-" + zeros) + digits;
  }

  /** Any other field shows only padding, and then sign and digits. */
  lemma RightFieldShows(u: nat, base: nat, negFlag: bool, length: int, padc: char, upcase: bool)
    requires Base(base) && !(negFlag && padc == '0')
    ensures var f, shown := Formatted(u, base, negFlag, length, false, padc, upcase), Signed(u, base, negFlag, upcase);
            && |shown| <= |f| && f[|f| - |shown|..] == shown && forall k :: 0 <= k < |f| - |shown| ==> f[k] == padc
  {
    var shown := Signed(u, base, negFlag, upcase);
    RepeatIsAll(padc, length - |shown|);
    assert Formatted(u, base, negFlag, length, false, padc, upcase) == Repeat(padc, length - |shown|) + shown;
  }

  /** Digits backwards, sign and padding, still to be mirrored. */
  method Pad(buf: array<char>, actualLength: nat, length: nat, zeroes: bool, padc: char, ghost raw: string)
    requires actualLength <= length <= buf.Length && raw <= buf[..actualLength]
    requires |raw| == if zeroes then actualLength - 1 else actualLength
    modifies buf
    ensures buf[..length] == if zeroes then raw + Repeat(padc, length - actualLength) + "-"
                             else raw + Repeat(padc, length - actualLength)
    ensures buf[length..] == old(buf[length..])
  {
    ghost var was := buf[..];
    ghost var pad := Repeat(padc, length - actualLength);
    if zeroes {
      Fill(buf, actualLength - 1, length - 1, padc);
      assert buf[..length - 1] == raw + pad;
      buf[length - 1] := '-';
      assert buf[..length] == buf[..length - 1] + "-";
    } else {
      Fill(buf, actualLength, length, padc);
      assert buf[..length] == raw + pad;
    }
  }

  method PrintNum(buf: array<char>, u: nat, base: nat, negFlag: bool, width: int, ladjust: bool, padding: char,
                  upcase: bool) returns (length: nat)
    requires Base(base)
    requires |Formatted(u, base, negFlag, width, ladjust, padding, upcase)| <= buf.Length
    modifies buf
    ensures length == |Formatted(u, base, negFlag, width, ladjust, padding, upcase)|
    ensures buf[..length] == Formatted(u, base, negFlag, width, ladjust, padding, upcase)
    ensures buf[length..] == old(buf[length..])
  {
    ghost var was := buf[..];
    FormattedLength(u, base, negFlag, width, ladjust, padding, upcase);
    var actualLength, raw := EmitSigned(buf, u, base, negFlag, upcase);
    length := if width < actualLength then actualLength else width;
    assert buf[length..] == was[length..];
    Arrange(buf, actualLength, length, negFlag, ladjust, if ladjust then ' ' else padding, raw);
  }

  /** The digits and the sign, backwards. */
  method EmitSigned(buf: array<char>, u: nat, base: nat, negFlag: bool, upcase: bool)
    returns (actualLength: nat, ghost raw: string)
    requires Base(base) && |Text(u, base, upcase)| + (if negFlag then 1 else 0) <= buf.Length
    modifies buf
    ensures actualLength == |Text(u, base, upcase)| + (if negFlag then 1 else 0)
    ensures buf[..actualLength] == raw + (if negFlag then "-" else "") && Reverse(raw) == Text(u, base, upcase)
    ensures forall k :: actualLength <= k < buf.Length ==> buf[k] == old(buf[k])
  {
    actualLength := EmitDigits(buf, u, base, upcase);
    raw := buf[..actualLength];
    if negFlag {
      buf[actualLength] := '-';
      actualLength := actualLength + 1;
    }
  }

  /** The padding and the mirroring. */
  method Arrange(buf: array<char>, actualLength: nat, length: nat, negFlag: bool, ladjust: bool, padc: char,
                 ghost raw: string)
    requires actualLength <= length <= buf.Length
    requires buf[..actualLength] == raw + if negFlag then "-" else ""
    modifies buf
    ensures var sign := if negFlag then "-" else "";
            var blank := Repeat(padc, length - actualLength);
            buf[..length] == if ladjust then sign + Reverse(raw) + blank
                             else if negFlag && padc == '0' then sign + blank + Reverse(raw)
                             else blank + sign + Reverse(raw)
    ensures buf[length..] == old(buf[length..])
  {
    ghost var sign := if negFlag then "-" else "";
    ghost var pad := length - actualLength;
    var zeroes := negFlag && !ladjust && padc == '0';
    ghost var front := if zeroes then raw else raw + sign;
    Pad(buf, actualLength, length, zeroes, padc, front);
    if ladjust {
      MirrorPlain(raw, sign);
      ReverseHead(buf, actualLength, length, raw + sign, Repeat(padc, pad));
    } else {
      if zeroes { MirrorZeroes(raw, padc, pad); } else { MirrorPadded(raw, sign, padc, pad); }
      ReversePrefix(buf, length);
    }
  }

  method ReverseHead(buf: array<char>, n: nat, length: nat, ghost head: string, ghost tail: string)
    requires n == |head| && length <= buf.Length && buf[..length] == head + tail
    modifies buf
    ensures buf[..length] == Reverse(head) + tail && buf[length..] == old(buf[length..])
  {
    ghost var was := buf[..];
    assert was[..n] == head && was[n..length] == tail;
    ReversePrefix(buf, n);
    assert buf[n..] == was[n..];
    assert buf[n..length] == was[n..][..length - n];
    assert buf[..length] == buf[..n] + buf[n..length];
  }

  lemma MirrorPlain(raw: string, sign: string)
    requires |sign| <= 1
    ensures Reverse(raw + sign) == sign + Reverse(raw)
  {
    ReverseJoin(raw, sign);
  }

  lemma MirrorZeroes(raw: string, padc: char, pad: nat)
    ensures Reverse(raw + Repeat(padc, pad) + "-") == "-" + Repeat(padc, pad) + Reverse(raw)
  {
    ReverseAppend(raw + Repeat(padc, pad), '-');
    ReverseJoin(raw, Repeat(padc, pad));
    ReverseRepeat(padc, pad);
  }

  lemma MirrorPadded(raw: string, sign: string, padc: char, pad: nat)
    requires |sign| <= 1
    ensures Reverse(raw + sign + Repeat(padc, pad)) == Repeat(padc, pad) + sign + Reverse(raw)
  {
    ReverseJoin(raw + sign, Repeat(padc, pad));
    ReverseRepeat(padc, pad);
    MirrorPlain(raw, sign);
  }

  // ---------- C strings ----------

  predicate IsDigit(c: char) { '0' <= c <= '9' }

  predicate IsLetter(c: char, upcase: bool) { if upcase then 'A' <= c <= 'Z' else 'a' <= c <= 'z' }

  /** Digits, and letters of the case asked for, each below the base. */
  lemma {:induction false} TextCharacters(u: nat, base: nat, upcase: bool)
    requires Base(base)
    ensures forall c <- Text(u, base, upcase) :: (IsDigit(c) || IsLetter(c, upcase)) && DigitValue(c) < base
    ensures '\0' !in Text(u, base, upcase)
    ensures base <= 10 ==> forall c <- Text(u, base, upcase) :: IsDigit(c)
    decreases u
  {
    DivShrinks(u, base);
    if base <= u { TextCharacters(u / base, base, upcase); }
  }

  /** The index of the terminator. */
  method Strlen(s: array<char>) returns (n: nat)
    requires '\0' in s[..]
    ensures n < s.Length && s[n] == '\0' && forall k :: 0 <= k < n ==> s[k] != '\0'
  {
    n := 0;
    while s[n] != '\0'
      invariant n < s.Length && '\0' in s[n..] && forall k :: 0 <= k < n ==> s[k] != '\0'
      decreases s.Length - n
    {
      assert s[n..] == [s[n]] + s[n + 1..];
      n := n + 1;
    }
  }

  method ReverseString(s: array<char>, ghost n: nat)
    requires n < s.Length && s[n] == '\0' && forall k :: 0 <= k < n ==> s[k] != '\0'
    modifies s
    ensures s[..n] == Reverse(old(s[..n])) && s[n..] == old(s[n..])
  {
    var len := Strlen(s);
    assert len == n;
    ReversePrefix(s, len);
  }

  lemma ReverseHasNo(s: string, c: char)
    requires c !in Reverse(s)
    ensures forall k :: 0 <= k < |s| ==> s[k] != c
  {
    forall k | 0 <= k < |s| ensures s[k] != c {
      ReverseAt(s, |s| - 1 - k);
      assert Reverse(s)[|s| - 1 - k] in Reverse(s);
    }
  }

  lemma RawHasNoTerminator(raw: string, n: nat, base: nat)
    requires Base(base) && Reverse(raw) == Text(n, base, false)
    ensures forall k :: 0 <= k < |raw| ==> raw[k] != '\0'
  {
    TextCharacters(n, base, false);
    ReverseHasNo(raw, '\0');
  }

  /** itoa() with base 10 and itohex() with base 16: the same loop, a terminator, and a reversal. */
  method TextInto(n: nat, base: nat, s: array<char>)
    requires Base(base) && |Text(n, base, false)| < s.Length
    modifies s
    ensures var len := |Text(n, base, false)|;
            s[..] == Text(n, base, false) + ['\0'] + old(s[len + 1..])
  {
    ghost var was := s[..];
    var i := EmitDigits(s, n, base, false);
    ghost var raw := s[..i];
    RawHasNoTerminator(raw, n, base);
    s[i] := '\0';
    assert s[..i] == raw && s[i..] == ['\0'] + was[i + 1..];
    ReverseString(s, i);
    assert s[..] == s[..i] + s[i..];
  }

  method Itoa(n: nat, s: array<char>)
    requires n < U32 && |Text(n, 10, false)| < s.Length
    modifies s
    ensures s[..] == Text(n, 10, false) + ['\0'] + old(s[|Text(n, 10, false)| + 1..])
  {
    TextInto(n, 10, s);
  }

  method Itohex(n: nat, s: array<char>)
    requires n < U32 && |Text(n, 16, false)| < s.Length
    modifies s
    ensures s[..] == Text(n, 16, false) + ['\0'] + old(s[|Text(n, 16, false)| + 1..])
  {
    TextInto(n, 16, s);
  }

  function DigitPrefix(s: string): (d: string)
    ensures d <= s && (forall c <- d :: IsDigit(c))
    ensures d == s || !IsDigit(s[|d|])
  {
    if s == [] || !IsDigit(s[0]) then [] else [s[0]] + DigitPrefix(s[1..])
  }

  lemma {:induction false} DigitPrefixIs(d: string, s: string)
    requires d <= s && (forall c <- d :: IsDigit(c)) && (d == s || !IsDigit(s[|d|]))
    ensures DigitPrefix(s) == d
  {
    if d != [] {
      DigitPrefixIs(d[1..], s[1..]);
      assert d == [d[0]] + d[1..];
    }
  }

  // ---------- atoi: a 32-bit int, returned as uint32_t ----------

  predicate FitsInt(x: int) { -I31 <= x < I31 }

  function Wrap(x: int): (w: int)
    ensures FitsInt(w) && (FitsInt(x) ==> w == x)
  {
    (x + I31) % U32 - I31
  }

  lemma WrapIs(x: int) returns (q: int)
    ensures x == Wrap(x) + q * U32
  {
    q := (x + I31) / U32;
  }

  /** No intermediate result of n * 10 + c - '0', from left to right, leaves the range of int. */
  predicate NeverOverflows(d: string) {
    d == [] ||
    (NeverOverflows(d[..|d| - 1]) && Value(d[..|d| - 1], 10) * 10 + d[|d| - 1] as int < I31)
  }

  lemma OverflowsAppend(d: string, c: char)
    ensures NeverOverflows(d + [c]) <==> NeverOverflows(d) && Value(d, 10) * 10 + c as int < I31
  {
    assert (d + [c])[..|d|] == d;
  }

  lemma SameRemainder(n: int, laps: int)
    ensures (n + laps * U32) % U32 == n % U32
  {
  }

  /** n = n * 10 + c - '0' in 32 bits, after the digits d; safe says that no result so far has left the range. */
  method NextInt(n: int, c: char, ghost d: string, ghost laps: int, ghost safe: bool)
    returns (next: int, ghost moreLaps: int, ghost stillSafe: bool)
    requires IsDigit(c) && Value(d, 10) == n + laps * U32 && (safe <==> NeverOverflows(d)) && (safe ==> laps == 0)
    ensures Value(d + [c], 10) == next + moreLaps * U32
    ensures (stillSafe <==> NeverOverflows(d + [c])) && (stillSafe ==> moreLaps == 0)
  {
    var tens := Wrap(n * 10);
    var sum := Wrap(tens + c as int);
    next := Wrap(sum - '0' as int);
    stillSafe := safe && FitsInt(n * 10) && FitsInt(tens + c as int) && FitsInt(sum - '0' as int);
    ValueAppend(d, c, 10);
    OverflowsAppend(d, c);
    var q1 := WrapIs(n * 10);
    var q2 := WrapIs(tens + c as int);
    var q3 := WrapIs(sum - '0' as int);
    moreLaps := laps * 10 + q1 + q2 + q3;
  }

  /** The loop of atoi(): it stops at position i, behind the digits d. */
  method ReadDigits(s: array<char>) returns (n: int, i: nat, ghost d: string, ghost laps: int, ghost safe: bool)
    requires '\0' in s[..]
    ensures i < s.Length && d == s[..i] && (forall c <- d :: IsDigit(c)) && !IsDigit(s[i])
    ensures Value(d, 10) == n + laps * U32 && (safe <==> NeverOverflows(d))
  {
    n, i, d, laps, safe := 0, 0, [], 0, true;
    ghost var end :| 0 <= end < s.Length && s[end] == '\0';
    while IsDigit(s[i])
      invariant i <= end && d == s[..i] && forall c <- d :: IsDigit(c)
      invariant Value(d, 10) == n + laps * U32
      invariant (safe <==> NeverOverflows(d)) && (safe ==> laps == 0)
      decreases s.Length - i
    {
      var c := s[i];
      n, laps, safe := NextInt(n, c, d, laps, safe);
      i, d := i + 1, d + [c];
    }
  }

  method Atoi(s: array<char>) returns (r: nat, ghost safe: bool)
    requires '\0' in s[..]
    ensures r == Value(DigitPrefix(s[..]), 10) % U32
    ensures safe <==> NeverOverflows(DigitPrefix(s[..]))
  {
    var n, i;
    ghost var d, laps;
    n, i, d, laps, safe := ReadDigits(s);
    DigitPrefixIs(d, s[..]);
    SameRemainder(n, laps);
    r := n % U32;
  }

  /** atoi(itoa(n)) is n for every 32-bit n, with the wrap-around of the hardware ... */
  lemma AtoiReadsItoa(n: nat, rest: string)
    requires n < U32
    ensures Value(DigitPrefix(Text(n, 10, false) + ['\0'] + rest), 10) % U32 == n
  {
    TextCharacters(n, 10, false);
    DigitPrefixIs(Text(n, 10, false), Text(n, 10, false) + ['\0'] + rest);
    ReadsBack(n, 10, false);
  }

  /** ... and no addition overflows on the way exactly up to 2^31 - 49, because '0' is taken away last. */
  lemma {:induction false} SafeExactlyBelow(n: nat)
    ensures NeverOverflows(Text(n, 10, false)) <==> n + '0' as int < I31
    decreases n
  {
    DivShrinks(n, 10);
    var d := Text(n, 10, false);
    var last := Digit(n % 10, false);
    if n < 10 {
      assert d[..|d| - 1] == [];
    } else {
      assert d[..|d| - 1] == Text(n / 10, 10, false);
      ReadsBack(n / 10, 10, false);
      SafeExactlyBelow(n / 10);
      assert last as int == n % 10 + '0' as int;
    }
  }
}
