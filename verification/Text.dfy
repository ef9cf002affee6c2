/** Strings as the hub uses them: splitting and joining on a separator, numbers printed
    and parsed as the Go strconv package does, and the byte order of bucket keys.
    UTF-8 byte order and code point order agree, so `string` stands for a Go string. */
module Text {

  datatype Option<+T> = None | Some(value: T)

  const MaxInt64: int := 0x7FFF_FFFF_FFFF_FFFF
  const MinInt64: int := -0x8000_0000_0000_0000
  const MaxUint64: int := 0xFFFF_FFFF_FFFF_FFFF

  type Int64 = x: int | MinInt64 <= x <= MaxInt64

  // ----- strings.Split and strings.Join on a one-character separator

  /** Puts one more character in front of a split string. */
  function Attach(c: char, sep: char, parts: seq<string>): (r: seq<string>)
    requires |parts| >= 1
    ensures |r| >= 1
  {
    if c == sep then [""] + parts else [[c] + parts[0]] + parts[1..]
  }

  function Split(s: string, sep: char): (parts: seq<string>)
    ensures |parts| >= 1
  {
    if s == "" then [""] else Attach(s[0], sep, Split(s[1..], sep))
  }

  function Join(parts: seq<string>, sep: char): string
    requires |parts| >= 1
  {
    if |parts| == 1 then parts[0] else parts[0] + [sep] + Join(parts[1..], sep)
  }

  lemma {:induction false} AttachAppend(c: char, sep: char, head: seq<string>, tail: seq<string>)
    requires |head| >= 1
    ensures Attach(c, sep, head + tail) == Attach(c, sep, head) + tail
  {
  }

  /** Splitting distributes over a separator. */
  lemma {:induction false} SplitAppend(a: string, b: string, sep: char)
    ensures Split(a + [sep] + b, sep) == Split(a, sep) + Split(b, sep)
  {
    if a == "" {
      assert a + [sep] + b == [sep] + b;
    } else {
      SplitAppend(a[1..], b, sep);
      assert (a + [sep] + b)[1..] == a[1..] + [sep] + b;
      AttachAppend(a[0], sep, Split(a[1..], sep), Split(b, sep));
    }
  }

  /** No part holds the separator, and joining the parts gives the string back. */
  lemma {:induction false} JoinSplit(s: string, sep: char)
    ensures Join(Split(s, sep), sep) == s
    ensures forall p :: p in Split(s, sep) ==> sep !in p
  {
    if s == "" {
    } else {
      JoinSplit(s[1..], sep);
      var rest := Split(s[1..], sep);
      var parts := Split(s, sep);
      if s[0] == sep {
        assert parts[1..] == rest;
        assert s == "" + [sep] + Join(rest, sep);
      } else {
        assert parts[1..] == rest[1..];
        assert Join(parts, sep) == [s[0]] + Join(rest, sep);
      }
    }
  }

  lemma {:induction false} JoinAppend(xs: seq<string>, ys: seq<string>, sep: char)
    requires |xs| >= 1 && |ys| >= 1
    ensures Join(xs + ys, sep) == Join(xs, sep) + [sep] + Join(ys, sep)
  {
    if |xs| == 1 {
      assert (xs + ys)[1..] == ys;
    } else {
      JoinAppend(xs[1..], ys, sep);
      assert (xs + ys)[1..] == xs[1..] + ys;
    }
  }

  /** The parts are made of characters of the string. */
  lemma {:induction false} SplitChars(s: string, sep: char, c: char)
    requires c !in s
    ensures forall p :: p in Split(s, sep) ==> c !in p
  {
    if s == "" {
    } else {
      SplitChars(s[1..], sep, c);
      forall p | p in Split(s, sep) ensures c !in p {
        var rest := Split(s[1..], sep);
        assert p == "" || p == [s[0]] + rest[0] || p in rest;
      }
    }
  }

  /** A string is its own only part, or its own first part, exactly when it is free of the
      separator. */
  lemma {:induction false} SplitPlain(w: string, sep: char)
    ensures Split(w, sep) == [w] <==> sep !in w
    ensures |Split(w, sep)| == 1 <==> sep !in w
    ensures Split(w, sep)[0] == w <==> sep !in w
  {
    JoinSplit(w, sep);
    if sep !in w && w != "" {
      SplitPlain(w[1..], sep);
      assert w == [w[0]] + w[1..];
    }
  }

  /** Splitting undoes joining when no part holds the separator. */
  lemma {:induction false} SplitJoin(parts: seq<string>, sep: char)
    requires |parts| >= 1
    requires forall p :: p in parts ==> sep !in p
    ensures Split(Join(parts, sep), sep) == parts
  {
    SplitPlain(parts[0], sep);
    if |parts| > 1 {
      SplitJoin(parts[1..], sep);
      SplitAppend(parts[0], Join(parts[1..], sep), sep);
    }
  }

  // ----- strconv.FormatInt / FormatUint

  function DigitValue(c: char): nat {
    if '0' <= c <= '9' then c as int - '0' as int
    else if 'a' <= c <= 'f' then c as int - 'a' as int + 10
    else 16
  }

  function Digit(d: nat): (c: char)
    requires d < 16
    ensures DigitValue(c) == d && (d < 10 ==> '0' <= c <= '9')
    ensures c != '/' && c != '.' && c != '-' && c != '+'
  {
    if d < 10 then ('0' as int + d) as char else ('a' as int + (d - 10)) as char
  }

  function Quotient(n: nat, base: nat): (q: nat)
    requires base == 10 || base == 16
    ensures n >= base ==> q < n
  {
    if base == 10 then n / 10 else n / 16
  }

  function Remainder(n: nat, base: nat): (r: nat)
    requires base == 10 || base == 16
    ensures r < base && Quotient(n, base) * base + r == n
  {
    if base == 10 then n % 10 else n % 16
  }

  function FormatUint(n: nat, base: nat): (s: string)
    requires base == 10 || base == 16
    ensures |s| >= 1
  {
    if n < base then [Digit(n)] else FormatUint(Quotient(n, base), base) + [Digit(Remainder(n, base))]
  }

  function FormatInt(n: int): string {
    if n < 0 then "-" + FormatUint(-n, 10) else FormatUint(n, 10)
  }

  lemma {:induction false} FormatUintHasNo(n: nat, base: nat, c: char)
    requires base == 10 || base == 16
    requires c == '/' || c == '.' || c == '-' || c == '+'
    ensures c !in FormatUint(n, base)
  {
    if n < base {
    } else {
      FormatUintHasNo(Quotient(n, base), base, c);
    }
  }

  // ----- strconv.ParseInt(s, 10, 64); its error value is ignored by the callers

  datatype Parsed = Number(n: nat) | Overflow | Malformed

  /** The digit loop of strconv.ParseUint: it stops at the first character that is not a
      digit and at the first overflow, whichever comes first. */
  function ScanDigits(s: string, base: nat, acc: nat): Parsed
    requires base == 10 || base == 16
  {
    if s == "" then Number(acc)
    else if DigitValue(s[0]) >= base then Malformed
    else if acc * base + DigitValue(s[0]) > MaxUint64 then Overflow
    else ScanDigits(s[1..], base, acc * base + DigitValue(s[0]))
  }

  /** What the callers read when they drop the error: zero for a malformed number and the
      nearest bound for one that is out of range. */
  function ParseInt(s: string): Int64 {
    var negative := s != "" && s[0] == '-';
    var digits := if s != "" && (s[0] == '-' || s[0] == '+') then s[1..] else s;
    if digits == "" then 0
    else
      match ScanDigits(digits, 10, 0)
      case Malformed => 0
      case Overflow => if negative then MinInt64 else MaxInt64
      case Number(n) =>
        var value: int := if negative then 0 - n else n;
        if value < MinInt64 then MinInt64 else if value > MaxInt64 then MaxInt64 else value
  }

  /** Scanning a printed number and then the rest is scanning the rest from that number. */
  lemma {:induction false} ScanFormat(n: nat, base: nat, rest: string)
    requires (base == 10 || base == 16) && n <= MaxUint64
    ensures ScanDigits(FormatUint(n, base) + rest, base, 0) == ScanDigits(rest, base, n)
  {
    if n < base {
      assert ([Digit(n)] + rest)[1..] == rest;
    } else {
      var q := Quotient(n, base);
      var last := [Digit(Remainder(n, base))] + rest;
      ScanFormat(q, base, last);
      assert FormatUint(n, base) + rest == FormatUint(q, base) + last;
      assert last[1..] == rest;
    }
  }

  /** Printed numbers are told apart by their text. */
  lemma {:induction false} FormatUintInjective(a: nat, b: nat, base: nat)
    requires base == 10 || base == 16
    requires FormatUint(a, base) == FormatUint(b, base)
    ensures a == b
    decreases a
  {
    var s, n := FormatUint(a, base), |FormatUint(a, base)|;
    if n == 1 {
      assert DigitValue(s[0]) == a && DigitValue(s[0]) == b;
    } else {
      var x, y := Quotient(a, base), Quotient(b, base);
      assert s[..n - 1] == FormatUint(x, base) && s[..n - 1] == FormatUint(y, base);
      FormatUintInjective(x, y, base);
      assert s[n - 1] == Digit(Remainder(a, base)) && s[n - 1] == Digit(Remainder(b, base));
    }
  }

  /** ParseInt undoes FormatInt on every 64-bit number. */
  lemma {:induction false} ParseFormat(n: Int64)
    ensures ParseInt(FormatInt(n)) == n
  {
    var m: int := n;
    if n < 0 { m := 0 - m; }
    var digits := FormatUint(m, 10);
    ScanFormat(m, 10, "");
    assert digits + "" == digits;
    FormatUintHasNo(m, 10, '-');
    FormatUintHasNo(m, 10, '+');
    assert digits[0] in digits;
    if n < 0 {
      assert FormatInt(n)[1..] == digits;
    }
  }

  predicate AllDigits(s: string) {
    forall i :: 0 <= i < |s| ==> '0' <= s[i] <= '9'
  }

  /** The number that digits write after `acc`. */
  function Decimal(s: string, acc: nat): (n: nat)
    requires AllDigits(s)
    ensures n >= acc
  {
    if s == "" then acc else Decimal(s[1..], acc * 10 + (s[0] as int - '0' as int))
  }

  /** The nearest 64-bit number. */
  function Nearest(n: int): Int64 {
    if n < -0x8000_0000_0000_0000 then -0x8000_0000_0000_0000
    else if n > 0x7FFF_FFFF_FFFF_FFFF then 0x7FFF_FFFF_FFFF_FFFF
    else n
  }

  lemma {:induction false} ScanAllDigits(s: string, acc: nat)
    requires AllDigits(s) && acc <= MaxUint64
    ensures ScanDigits(s, 10, acc) == if Decimal(s, acc) <= MaxUint64 then Number(Decimal(s, acc)) else Overflow
  {
    if s == "" {
    } else if acc * 10 + DigitValue(s[0]) <= MaxUint64 {
      ScanAllDigits(s[1..], acc * 10 + DigitValue(s[0]));
    }
  }

  /** The first character that is no digit ends the scan, unless an overflow came before. */
  lemma {:induction false} ScanUpTo(s: string, i: nat, acc: nat)
    requires i < |s| && AllDigits(s[..i]) && !('0' <= s[i] <= '9') && acc <= MaxUint64
    ensures ScanDigits(s, 10, acc) == if Decimal(s[..i], acc) <= MaxUint64 then Malformed else Overflow
    decreases i
  {
    if i == 0 {
    } else {
      assert s[..i][0] == s[0] && s[..i][1..] == s[1..][..i - 1];
      if acc * 10 + DigitValue(s[0]) <= MaxUint64 {
        ScanUpTo(s[1..], i - 1, acc * 10 + DigitValue(s[0]));
      }
    }
  }

  /** What is read from any string when the error is dropped: a sign and digits give the nearest
      64-bit number; anything else gives zero, or a bound if its leading digits exceed 64 bits. */
  lemma {:induction false} ParseExactly(sign: string, body: string)
    requires sign in {"", "-", "+"} && (sign == "" ==> body == "" || body[0] !in {'-', '+'})
    ensures body == "" ==> ParseInt(sign + body) == 0
    ensures body != "" && AllDigits(body) ==>
              var n: int := Decimal(body, 0);
              ParseInt(sign + body) == Nearest(if sign == "-" then 0 - n else n)
    ensures forall i :: 0 <= i < |body| && AllDigits(body[..i]) && !('0' <= body[i] <= '9') ==>
              ParseInt(sign + body)
              == if Decimal(body[..i], 0) <= MaxUint64 then 0 else if sign == "-" then MinInt64 else MaxInt64
  {
    if sign == "" {
      assert sign + body == body;
    } else {
      assert (sign + body)[1..] == body && (sign + body)[0] == sign[0];
    }
    if AllDigits(body) { ScanAllDigits(body, 0); }
    forall i | 0 <= i < |body| && AllDigits(body[..i]) && !('0' <= body[i] <= '9')
      ensures ScanDigits(body, 10, 0) == if Decimal(body[..i], 0) <= MaxUint64 then Malformed else Overflow
    {
      ScanUpTo(body, i, 0);
    }
  }

  // ----- byte order

  predicate Less(a: string, b: string) {
    b != "" && (a == "" || a[0] < b[0] || (a[0] == b[0] && Less(a[1..], b[1..])))
  }

  lemma {:induction false} LessIrreflexive(a: string)
    ensures !Less(a, a)
  {
    if a == "" {
    } else {
      LessIrreflexive(a[1..]);
    }
  }

  lemma {:induction false} LessTotal(a: string, b: string)
    ensures Less(a, b) || a == b || Less(b, a)
  {
    if a != "" && b != "" && a[0] == b[0] {
      LessTotal(a[1..], b[1..]);
      assert a == [a[0]] + a[1..] && b == [b[0]] + b[1..];
    }
  }

  lemma {:induction false} LessTransitive(a: string, b: string, c: string)
    requires Less(a, b) && Less(b, c)
    ensures Less(a, c)
  {
    if a != "" && a[0] == b[0] && b[0] == c[0] {
      LessTransitive(a[1..], b[1..], c[1..]);
    }
  }

  lemma {:induction false} LessAsymmetric(a: string, b: string)
    requires Less(a, b)
    ensures !Less(b, a) && a != b
  {
    LessIrreflexive(a);
    if Less(b, a) { LessTransitive(a, b, a); }
  }

  /** A common prefix does not matter. */
  lemma {:induction false} LessPrefix(p: string, a: string, b: string)
    ensures Less(p + a, p + b) <==> Less(a, b)
  {
    if p == "" {
      assert p + a == a && p + b == b;
    } else {
      LessPrefix(p[1..], a, b);
      assert (p + a)[1..] == p[1..] + a && (p + b)[1..] == p[1..] + b;
    }
  }

  /** Prefixes of one length that differ decide the order. */
  lemma {:induction false} LessDecided(a: string, b: string, x: string, y: string)
    requires |a| == |b| && a != b
    ensures Less(a + x, b + y) <==> Less(a, b)
  {
    assert a == [a[0]] + a[1..] && b == [b[0]] + b[1..];
    assert (a + x)[1..] == a[1..] + x && (b + y)[1..] == b[1..] + y;
    if a[0] == b[0] {
      LessDecided(a[1..], b[1..], x, y);
    }
  }

  // ----- the order of printed timestamps

  function Width(n: nat): nat {
    |FormatUint(n, 10)|
  }

  lemma {:induction false} WidthMonotone(a: nat, b: nat)
    requires a <= b
    ensures Width(a) <= Width(b)
  {
    if a < 10 {
    } else {
      WidthMonotone(a / 10, b / 10);
    }
  }

  /** At one width, text order is number order. */
  lemma {:induction false} EqualWidthOrder(a: nat, b: nat)
    requires Width(a) == Width(b)
    ensures Less(FormatUint(a, 10), FormatUint(b, 10)) <==> a < b
  {
    if a < 10 {
    } else {
      var x, y := FormatUint(a / 10, 10), FormatUint(b / 10, 10);
      var c, d := [Digit(a % 10)], [Digit(b % 10)];
      EqualWidthOrder(a / 10, b / 10);
      if x == y {
        FormatUintInjective(a / 10, b / 10, 10);
        LessPrefix(x, c, d);
      } else {
        LessDecided(x, y, c, d);
      }
    }
  }

  /** The number written by the first `w` digits of `b`. */
  function Leading(b: nat, w: nat): nat {
    if b < 10 || Width(b) <= w then b else Leading(b / 10, w)
  }

  lemma {:induction false} LeadingDigits(b: nat, w: nat)
    requires 1 <= w <= Width(b)
    ensures FormatUint(b, 10)[..w] == FormatUint(Leading(b, w), 10)
  {
    if w < Width(b) {
      LeadingDigits(b / 10, w);
      assert FormatUint(b, 10)[..w] == FormatUint(b / 10, 10)[..w];
    } else {
      assert FormatUint(b, 10)[..w] == FormatUint(b, 10);
    }
  }

  /** The exact meaning of key order for any two timestamps: of two numbers followed by a
      slash, the smaller one sorts first if and only if it does not exceed the number made
      by as many leading digits of the larger one. At equal width that always holds. */
  lemma {:induction false} StampOrder(a: nat, b: nat, x: string, y: string)
    requires a < b
    ensures Less(FormatUint(a, 10) + "/" + x, FormatUint(b, 10) + "/" + y)
       <==> a <= Leading(b, Width(a))
  {
    var w := Width(a);
    var fa, fb := FormatUint(a, 10), FormatUint(b, 10);
    WidthMonotone(a, b);
    LeadingDigits(b, w);
    var head, tail := fb[..w], fb[w..] + "/" + y;
    var p := Leading(b, w);
    assert fa + "/" + x == fa + ("/" + x);
    assert fb + "/" + y == head + tail;
    if fa == head {
      FormatUintInjective(a, p, 10);
      LessPrefix(fa, "/" + x, tail);
      assert w < |fb|;
      assert fb[w] in fb;
      FormatUintHasNo(b, 10, '/');
      FormatDigits(b, w);
    } else {
      LessDecided(fa, head, "/" + x, tail);
      EqualWidthOrder(a, p);
    }
  }

  lemma {:induction false} FormatDigits(n: nat, i: nat)
    requires i < Width(n)
    ensures '0' <= FormatUint(n, 10)[i] <= '9'
  {
    if n >= 10 && i < Width(n) - 1 { FormatDigits(n / 10, i); }
  }
}
