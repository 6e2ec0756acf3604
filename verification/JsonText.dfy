/** JSON text at the level of UTF-16 code units: quoted strings (section 7 of RFC 8259, with lone
    surrogates escaped) and decimal integers, how they are printed and how any such text is read. */
module JsonText {
  import opened Common

  type Unit = u: int | 0 <= u < 0x10000

  type Text = seq<Unit>

  const QUOTE: Unit := 0x22
  const BACKSLASH: Unit := 0x5c
  const MINUS: Unit := 0x2d

  // ---- Printing strings ----

  predicate HighSurrogate(u: Unit) {
    0xd800 <= u < 0xdc00
  }

  predicate LowSurrogate(u: Unit) {
    0xdc00 <= u < 0xe000
  }

  function HexDigit(d: int): Unit
    requires 0 <= d < 16
  {
    if d < 10 then 0x30 + d else 0x61 + d - 10
  }

  /** A backslash, `u` and the four hexadecimal digits. */
  function HexEscape(u: Unit): Text {
    var h3 := u / 16;
    var h2 := h3 / 16;
    var h1 := h2 / 16;
    [BACKSLASH, 0x75, HexDigit(h1), HexDigit(h2 % 16), HexDigit(h3 % 16), HexDigit(u % 16)]
  }

  function EscapeOne(u: Unit): Text {
    if u == 0x08 then [BACKSLASH, 0x62]
    else if u == 0x09 then [BACKSLASH, 0x74]
    else if u == 0x0a then [BACKSLASH, 0x6e]
    else if u == 0x0c then [BACKSLASH, 0x66]
    else if u == 0x0d then [BACKSLASH, 0x72]
    else if u == QUOTE then [BACKSLASH, QUOTE]
    else if u == BACKSLASH then [BACKSLASH, BACKSLASH]
    else if u < 0x20 || HighSurrogate(u) || LowSurrogate(u) then HexEscape(u)
    else [u]
  }

  predicate StartsWithPair(s: Text) {
    |s| >= 2 && HighSurrogate(s[0]) && LowSurrogate(s[1])
  }

  /** A surrogate pair is copied; anything else is escaped unit by unit. */
  function Escaped(s: Text): Text {
    if s == [] then []
    else if StartsWithPair(s) then [s[0], s[1]] + Escaped(s[2..])
    else EscapeOne(s[0]) + Escaped(s[1..])
  }

  function Quoted(s: Text): Text {
    [QUOTE] + Escaped(s) + [QUOTE]
  }

  // ---- Printing integers ----

  predicate IsDigitUnit(u: Unit) {
    '0' as int <= u <= '9' as int
  }

  predicate AllDigits(s: Text) {
    forall i :: 0 <= i < |s| ==> IsDigitUnit(s[i])
  }

  function Digits(n: nat): (d: Text)
    ensures d != [] && AllDigits(d)
  {
    if n < 10 then [0x30 + n] else Digits(n / 10) + [0x30 + n % 10]
  }

  function DigitsValue(d: Text): int {
    if d == [] then 0 else DigitsValue(d[..|d| - 1]) * 10 + (d[|d| - 1] as int) - '0' as int
  }

  lemma {:induction false} DigitsValueOfDigits(n: nat)
    ensures DigitsValue(Digits(n)) == n
  {
    if n >= 10 {
      DigitsValueOfDigits(n / 10);
      var d := Digits(n);
      assert d[..|d| - 1] == Digits(n / 10);
    } else {
      assert DigitsValue([]) == 0;
    }
  }

  function Decimal(n: int): (d: Text)
    ensures d != [] && (d[0] == MINUS || IsDigitUnit(d[0]))
  {
    if n < 0 then [MINUS] + Digits(-n) else Digits(n)
  }

  // ---- Reading ----

  /** What was read and what stands behind it. */
  datatype Read<+T> = Read(value: T, rest: Text) | Unreadable

  function Prefixed(front: Text, r: Read<Text>): Read<Text> {
    if r.Unreadable? then r else Read(front + r.value, r.rest)
  }

  /** The unit a letter behind a backslash stands for. */
  function EscapeLetter(letter: Unit): Option<Unit> {
    if letter == '"' as int || letter == '\\' as int || letter == '/' as int then Some(letter)
    else if letter == 'b' as int then Some(0x08)
    else if letter == 'f' as int then Some(0x0c)
    else if letter == 'n' as int then Some(0x0a)
    else if letter == 'r' as int then Some(0x0d)
    else if letter == 't' as int then Some(0x09)
    else None
  }

  predicate IsHexUnit(u: Unit) {
    IsDigitUnit(u) || 'a' as int <= u <= 'f' as int || 'A' as int <= u <= 'F' as int
  }

  function HexValue(u: Unit): (v: int)
    requires IsHexUnit(u)
    ensures 0 <= v < 16
  {
    if IsDigitUnit(u) then u - '0' as int else if u >= 'a' as int then u - 'a' as int + 10 else u - 'A' as int + 10
  }

  /** A backslash, `u` and four hexadecimal digits of either case. */
  predicate HexEscapeAt(t: Text) {
    |t| >= 6 && t[0] == '\\' as int && t[1] == 'u' as int && forall i :: 2 <= i < 6 ==> IsHexUnit(t[i])
  }

  function HexUnit(t: Text): Unit
    requires HexEscapeAt(t)
  {
    HexValue(t[2]) * 0x1000 + HexValue(t[3]) * 0x100 + HexValue(t[4]) * 0x10 + HexValue(t[5])
  }

  /** The content of a string up to its closing quote (section 7 of RFC 8259). Control characters and lone
      surrogates must be escaped. */
  function ReadChars(t: Text): (r: Read<Text>)
    ensures r.Read? ==> |r.rest| < |t|
    decreases |t|
  {
    if t == [] then Unreadable
    else if t[0] == '"' as int then Read([], t[1..])
    else if t[0] == '\\' as int then
      if HexEscapeAt(t) then Prefixed([HexUnit(t)], ReadChars(t[6..]))
      else if |t| >= 2 && EscapeLetter(t[1]).Some? then Prefixed([EscapeLetter(t[1]).value], ReadChars(t[2..]))
      else Unreadable
    else if t[0] < 0x20 || LowSurrogate(t[0]) then Unreadable
    else if StartsWithPair(t) then Prefixed(t[..2], ReadChars(t[2..]))
    else if HighSurrogate(t[0]) then Unreadable
    else Prefixed([t[0]], ReadChars(t[1..]))
  }

  function ReadQuoted(t: Text): (r: Read<Text>)
    ensures r.Read? ==> |r.rest| < |t|
  {
    if t == [] || t[0] != '"' as int then Unreadable else ReadChars(t[1..])
  }

  /** The length of the run of digits a text starts with. */
  function DigitRun(t: Text): (n: nat)
    ensures n <= |t| && AllDigits(t[..n]) && EndsNumber(t[n..])
  {
    if EndsNumber(t) then 0
    else
      var n := DigitRun(t[1..]);
      assert t[..n + 1] == [t[0]] + t[1..][..n] && t[n + 1..] == t[1..][n..];
      n + 1
  }

  /** Nothing follows, or something that cannot continue a number. */
  predicate EndsNumber(rest: Text) {
    rest == [] || !IsDigitUnit(rest[0])
  }

  /** Digits without a leading zero. */
  function ReadDigits(t: Text): (r: Read<int>)
    ensures r.Read? ==> |r.rest| < |t|
  {
    var n := DigitRun(t);
    if n == 0 || (n > 1 && t[0] == '0' as int) then Unreadable else Read(DigitsValue(t[..n]), t[n..])
  }

  /** An integer (section 6 of RFC 8259). */
  function ReadInteger(t: Text): (r: Read<int>)
    ensures r.Read? ==> |r.rest| < |t|
  {
    if t != [] && t[0] == '-' as int then
      var r := ReadDigits(t[1..]);
      if r.Unreadable? then r else Read(-r.value, r.rest)
    else ReadDigits(t)
  }

  // ---- Strings read back ----

  lemma HexReadBack(u: Unit, rest: Text)
    ensures HexEscapeAt(HexEscape(u) + rest) && HexUnit(HexEscape(u) + rest) == u && (HexEscape(u) + rest)[6..] == rest
  {
    var u3 := u / 16;
    var u2 := u3 / 16;
    assert u == u3 * 16 + u % 16 && u3 == u2 * 16 + u3 % 16 && u2 == u2 / 16 * 16 + u2 % 16;
    var t := HexEscape(u);
    assert forall i :: 0 <= i < 6 ==> (t + rest)[i] == t[i];
  }

  lemma EscapeReadBack(u: Unit, rest: Text)
    ensures ReadChars(EscapeOne(u) + rest) == Prefixed([u], ReadChars(rest))
  {
    var t := EscapeOne(u) + rest;
    assert t[0] == EscapeOne(u)[0] && t[|EscapeOne(u)|..] == rest;
    if EscapeOne(u) == HexEscape(u) {
      HexReadBack(u, rest);
    } else if |EscapeOne(u)| == 2 {
      assert t[1] == EscapeOne(u)[1];
    }
  }

  lemma PairReadBack(high: Unit, low: Unit, rest: Text)
    requires HighSurrogate(high) && LowSurrogate(low)
    ensures ReadChars([high, low] + rest) == Prefixed([high, low], ReadChars(rest))
  {
    var t := [high, low] + rest;
    assert t[..2] == [high, low] && t[2..] == rest;
  }

  /** An escaped string is read back, whatever stands behind its closing quote. */
  lemma {:induction false} EscapedReadBack(s: Text, rest: Text)
    ensures ReadChars(Escaped(s) + [QUOTE] + rest) == Read(s, rest)
  {
    hide EscapeOne, ReadChars;
    if s == [] {
      ClosingQuote(rest);
      assert Escaped(s) + [QUOTE] + rest == [QUOTE] + rest;
    } else if StartsWithPair(s) {
      EscapedReadBack(s[2..], rest);
      PairReadBack(s[0], s[1], Escaped(s[2..]) + [QUOTE] + rest);
      assert Escaped(s) + [QUOTE] + rest == [s[0], s[1]] + (Escaped(s[2..]) + [QUOTE] + rest);
      assert s == [s[0], s[1]] + s[2..];
    } else {
      EscapedReadBack(s[1..], rest);
      EscapeReadBack(s[0], Escaped(s[1..]) + [QUOTE] + rest);
      assert Escaped(s) + [QUOTE] + rest == EscapeOne(s[0]) + (Escaped(s[1..]) + [QUOTE] + rest);
      assert s == [s[0]] + s[1..];
    }
  }

  lemma ClosingQuote(rest: Text)
    ensures ReadChars([QUOTE] + rest) == Read([], rest)
  {
  }

  /** A quoted string is JSON for that string: reading it gives the string back and stops behind it. */
  lemma QuotedReadBack(s: Text, rest: Text)
    ensures ReadQuoted(Quoted(s) + rest) == Read(s, rest)
  {
    EscapedReadBack(s, rest);
    assert (Quoted(s) + rest)[1..] == Escaped(s) + [QUOTE] + rest;
  }

  /** So what follows a quoted string cannot be mistaken for part of it. */
  lemma QuotedReadable(s: Text, t: Text, a: Text, b: Text)
    requires Quoted(s) + a == Quoted(t) + b
    ensures s == t && a == b
  {
    hide ReadQuoted, Quoted;
    QuotedReadBack(s, a);
    QuotedReadBack(t, b);
  }

  // ---- No string is spelled shorter ----

  /** The hexadecimal escapes of a string's text use no capital letters. */
  predicate SmallHex(t: Text) {
    if t == [] || t[0] == QUOTE then true
    else if HexEscapeAt(t) then (forall i :: 2 <= i < 6 ==> IsDigitUnit(t[i]) || t[i] >= 0x61) && SmallHex(t[6..])
    else if t[0] == BACKSLASH then |t| >= 2 ==> SmallHex(t[2..])
    else SmallHex(t[1..])
  }

  lemma EscapedBehind(u: Unit, s: Text)
    ensures var whole := Escaped([u] + s);
            if StartsWithPair([u] + s) then |whole| < |EscapeOne(u)| + |Escaped(s)| else whole == EscapeOne(u) + Escaped(s)
  {
    assert ([u] + s)[1..] == s;
    if StartsWithPair([u] + s) {
      assert ([u] + s)[2..] == s[1..];
      assert Escaped(s) == EscapeOne(s[0]) + Escaped(s[1..]);
    }
  }

  lemma HexPrintBack(t: Text)
    requires HexEscapeAt(t) && forall i :: 2 <= i < 6 ==> IsDigitUnit(t[i]) || t[i] >= 0x61
    ensures HexEscape(HexUnit(t)) == t[..6]
  {
    var a, b, c, d := HexValue(t[2]), HexValue(t[3]), HexValue(t[4]), HexValue(t[5]);
    var u := HexUnit(t);
    assert u / 16 == a * 0x100 + b * 0x10 + c && u % 16 == d;
    assert u / 16 / 16 == a * 0x10 + b && u / 16 % 16 == c;
    assert HexDigit(a) == t[2] && HexDigit(b) == t[3] && HexDigit(c) == t[4] && HexDigit(d) == t[5];
  }

  /** One unit, read from `token`, is not printed longer than `token`, and as `token` itself if as long. */
  predicate Spells(token: Text, u: Unit, small: bool) {
    |EscapeOne(u)| <= |token| && (|EscapeOne(u)| == |token| && small ==> EscapeOne(u) == token)
  }

  lemma BehindToken(token: Text, u: Unit, more: Text, r: Read<Text>)
    requires r.Read? && Spells(token, u, SmallHex(token + more)) && (SmallHex(token + more) ==> SmallHex(more))
    requires |Escaped(r.value)| + 1 + |r.rest| <= |more|
    requires |Escaped(r.value)| + 1 + |r.rest| == |more| && SmallHex(more) ==> more == Escaped(r.value) + [QUOTE] + r.rest
    ensures var s := [u] + r.value; var t := token + more;
            && |Escaped(s)| + 1 + |r.rest| <= |t|
            && (|Escaped(s)| + 1 + |r.rest| == |t| && SmallHex(t) ==> t == Escaped(s) + [QUOTE] + r.rest)
  {
    hide EscapeOne, Escaped, SmallHex, HighSurrogate, LowSurrogate;
    EscapedBehind(u, r.value);
    Regroup(EscapeOne(u), Escaped(r.value), [QUOTE], r.rest);
  }

  lemma Regroup(p: Text, q: Text, r: Text, a: Text)
    ensures (p + q) + r + a == p + (q + r + a)
  {
  }

  lemma EscapeLetterSpells(t: Text)
    requires |t| >= 2 && t[0] == BACKSLASH && EscapeLetter(t[1]).Some?
    ensures Spells(t[..2], EscapeLetter(t[1]).value, true)
  {
  }

  lemma HexEscapeSpells(t: Text)
    requires HexEscapeAt(t)
    ensures Spells(t[..6], HexUnit(t), SmallHex(t))
  {
    if SmallHex(t) { HexPrintBack(t); }
  }

  /** The printed form of a string is the shortest text that reads as this string, and the only one of its
      length without capital hexadecimal digits. */
  lemma {:induction false} PrintedShortest(t: Text)
    requires ReadChars(t).Read?
    ensures var r := ReadChars(t);
            && |Escaped(r.value)| + 1 + |r.rest| <= |t|
            && (|Escaped(r.value)| + 1 + |r.rest| == |t| && SmallHex(t) ==> t == Escaped(r.value) + [QUOTE] + r.rest)
    decreases |t|
  {
    hide EscapeOne, Escaped, HexUnit, EscapeLetter;
    if t[0] == QUOTE {
      assert Escaped([]) == [] by { NothingEscaped(); }
      assert t == [] + [QUOTE] + t[1..];
    } else if t[0] == BACKSLASH && HexEscapeAt(t) {
      PrintedShortest(t[6..]);
      HexEscapeSpells(t);
      assert t == t[..6] + t[6..];
      BehindToken(t[..6], HexUnit(t), t[6..], ReadChars(t[6..]));
    } else if t[0] == BACKSLASH {
      PrintedShortest(t[2..]);
      EscapeLetterSpells(t);
      assert t == t[..2] + t[2..];
      BehindToken(t[..2], EscapeLetter(t[1]).value, t[2..], ReadChars(t[2..]));
    } else if StartsWithPair(t) {
      PrintedShortest(t[2..]);
      PairShortest(t, ReadChars(t[2..]));
    } else {
      PrintedShortest(t[1..]);
      assert EscapeOne(t[0]) == [t[0]] by { PlainUnit(t[0]); }
      assert t == [t[0]] + t[1..];
      BehindToken([t[0]], t[0], t[1..], ReadChars(t[1..]));
    }
  }

  lemma NothingEscaped()
    ensures Escaped([]) == []
  {
  }

  lemma PlainUnit(u: Unit)
    requires u >= 0x20 && u != QUOTE && u != BACKSLASH && !HighSurrogate(u) && !LowSurrogate(u)
    ensures EscapeOne(u) == [u]
  {
  }

  lemma PairShortest(t: Text, r: Read<Text>)
    requires StartsWithPair(t) && r.Read?
    requires |Escaped(r.value)| + 1 + |r.rest| <= |t| - 2
    requires |Escaped(r.value)| + 1 + |r.rest| == |t| - 2 && SmallHex(t[2..]) ==> t[2..] == Escaped(r.value) + [QUOTE] + r.rest
    ensures var s := t[..2] + r.value;
            && |Escaped(s)| + 1 + |r.rest| <= |t|
            && (|Escaped(s)| + 1 + |r.rest| == |t| && SmallHex(t) ==> t == Escaped(s) + [QUOTE] + r.rest)
  {
    var s := t[..2] + r.value;
    assert s[2..] == r.value && StartsWithPair(s);
    assert Escaped(s) == t[..2] + Escaped(r.value);
    assert t[1..][1..] == t[2..] && SmallHex(t) == SmallHex(t[1..]) == SmallHex(t[1..][1..]);
    Regroup(t[..2], Escaped(r.value), [QUOTE], r.rest);
    assert t == t[..2] + t[2..];
  }

  // ---- Integers read back ----

  lemma {:induction false} DigitRunIs(d: Text, rest: Text)
    requires AllDigits(d) && EndsNumber(rest)
    ensures DigitRun(d + rest) == |d|
    decreases |d|
  {
    if d == [] {
      assert d + rest == rest;
    } else {
      DigitRunIs(d[1..], rest);
      assert (d + rest)[1..] == d[1..] + rest;
    }
  }

  lemma {:induction false} DigitsStart(n: nat)
    ensures Digits(n)[0] == 0x30 <==> n == 0
    ensures n == 0 ==> |Digits(n)| == 1
  {
    if n >= 10 { DigitsStart(n / 10); }
  }

  lemma DigitsReadBack(n: nat, rest: Text)
    requires EndsNumber(rest)
    ensures ReadDigits(Digits(n) + rest) == Read(n, rest)
  {
    var d := Digits(n);
    DigitRunIs(d, rest);
    DigitsStart(n);
    DigitsValueOfDigits(n);
    assert (d + rest)[0] == d[0] && (d + rest)[..|d|] == d && (d + rest)[|d|..] == rest;
  }

  /** A printed integer is JSON for that integer: reading it gives the integer back and stops behind it. */
  lemma DecimalReadBack(n: int, rest: Text)
    requires EndsNumber(rest)
    ensures ReadInteger(Decimal(n) + rest) == Read(n, rest)
  {
    hide ReadDigits, AllDigits, Digits;
    if n < 0 {
      DigitsReadBack(-n, rest);
      assert (Decimal(n) + rest)[1..] == Digits(-n) + rest;
    } else {
      DigitsReadBack(n, rest);
      DigitFirst(n);
      assert (Decimal(n) + rest)[0] == Digits(n)[0];
    }
  }

  lemma DigitFirst(n: nat)
    ensures IsDigitUnit(Digits(n)[0])
  {
    assert AllDigits(Digits(n));
  }

  lemma SignFirst(n: int)
    ensures n < 0 <==> Decimal(n)[0] == MINUS
  {
    if n >= 0 { DigitFirst(n); }
  }

  lemma DecimalReadable(m: int, n: int, a: Text, b: Text)
    requires EndsNumber(a) && EndsNumber(b) && Decimal(m) + a == Decimal(n) + b
    ensures m == n && a == b
  {
    hide ReadInteger, Decimal;
    DecimalReadBack(m, a);
    DecimalReadBack(n, b);
  }

  /** Digits without a leading zero are the printed form of their value. */
  lemma {:induction false} DigitsPrintBack(d: Text)
    requires AllDigits(d) && d != [] && (|d| == 1 || d[0] != 0x30)
    ensures DigitsValue(d) >= 0 && Digits(DigitsValue(d)) == d
    ensures DigitsValue(d) == 0 ==> d == [0x30]
    decreases |d|
  {
    var front := d[..|d| - 1];
    assert d == front + [d[|d| - 1]];
    if |d| == 1 {
      assert front == [] && DigitsValue(front) == 0;
    } else {
      assert front[0] == d[0];
      if |front| == 1 { assert DigitsValue(front[..0]) == 0; }
      DigitsPrintBack(front);
    }
  }

  lemma OnlyDigits(t: Text)
    requires ReadDigits(t).Read?
    ensures var r := ReadDigits(t); r.value >= 0 && t == Digits(r.value) + r.rest
  {
    hide Digits, DigitsValue;
    DigitsPrintBack(t[..DigitRun(t)]);
  }

  /** The printed form is the only text of an integer; only zero can also be written with a sign. */
  lemma OnlySpelling(t: Text)
    requires ReadInteger(t).Read?
    ensures var r := ReadInteger(t); t == Decimal(r.value) + r.rest || (r.value == 0 && t == [MINUS] + Digits(0) + r.rest)
  {
    hide Digits, ReadDigits;
    if t[0] == MINUS {
      OnlyDigits(t[1..]);
      assert t == [MINUS] + t[1..];
    } else {
      OnlyDigits(t);
    }
  }
}
