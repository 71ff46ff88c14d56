/** Moments as their ISO text, and why that text sorts by time. */
module Instants {
  import opened Text

  /** A moment in UTC, by its fields. */
  datatype Instant = Instant(year: nat, month: nat, day: nat, hour: nat, minute: nat, second: nat, micro: nat)

  predicate Proper(t: Instant) {
    t.year < 10_000 && t.month < 100 && t.day < 100 && t.hour < 100 && t.minute < 100 && t.second < 100
    && t.micro < 1_000_000
  }

  /** Earlier or the same. */
  predicate NoLater(a: Instant, b: Instant) {
    if a.year != b.year then a.year < b.year
    else if a.month != b.month then a.month < b.month
    else if a.day != b.day then a.day < b.day
    else if a.hour != b.hour then a.hour < b.hour
    else if a.minute != b.minute then a.minute < b.minute
    else if a.second != b.second then a.second < b.second
    else a.micro <= b.micro
  }

  function Power(w: nat): nat {
    if w == 0 then 1 else 10 * Power(w - 1)
  }

  function Digit(n: nat): char
    requires n < 10
  {
    '0' + n as char
  }

  /** A number in so many decimal digits. */
  function Digits(n: nat, w: nat): (r: string)
    ensures |r| == w
  {
    if w == 0 then "" else Digits(n / 10, w - 1) + [Digit(n % 10)]
  }

  /** `isoformat` of a moment in UTC: microseconds only where there are any. */
  function Iso(t: Instant): string {
    Digits(t.year, 4) + "-" + Digits(t.month, 2) + "-" + Digits(t.day, 2) + "T" + Digits(t.hour, 2) + ":"
    + Digits(t.minute, 2)
    + ":" + Digits(t.second, 2) + Fraction(t.micro)
  }

  function Fraction(micro: nat): string {
    (if micro == 0 then "" else "." + Digits(micro, 6)) + "+00:00"
  }

  /** What a text of decimal digits says. */
  function Number(text: string): int {
    if text == "" then 0 else Number(text[..|text| - 1]) * 10 + (text[|text| - 1] as int - 48)
  }

  lemma {:induction false} DigitsSay(n: nat, w: nat)
    requires n < Power(w)
    ensures Number(Digits(n, w)) == n
  {
    if w > 0 {
      DigitsSay(n / 10, w - 1);
      assert Digits(n, w)[..w - 1] == Digits(n / 10, w - 1);
    }
  }

  /** The text has each field where ISO 8601 puts it: 2024-05-01T12:30:00, a fraction only where there is one, and the
      offset of UTC at the end. */
  lemma IsoSays(t: Instant)
    requires Proper(t)
    ensures
      var s := Iso(t);
      && |s| == (if t.micro == 0 then 25 else 32)
      && Number(s[..4]) == t.year && Number(s[5..7]) == t.month && Number(s[8..10]) == t.day
      && Number(s[11..13]) == t.hour && Number(s[14..16]) == t.minute && Number(s[17..19]) == t.second
      && s[4] == s[7] == '-' && s[10] == 'T' && s[13] == s[16] == ':' && s[|s| - 6..] == "+00:00"
      && (t.micro != 0 ==> s[19] == '.' && Number(s[20..26]) == t.micro)
  {
    assert Power(2) == 100 && Power(4) == 10_000 && Power(6) == 1_000_000;
    DigitsSay(t.year, 4);
    DigitsSay(t.month, 2);
    DigitsSay(t.day, 2);
    DigitsSay(t.hour, 2);
    DigitsSay(t.minute, 2);
    DigitsSay(t.second, 2);
    DigitsSay(t.micro, 6);
    IsoAt(t);
  }

  lemma IsoAt(t: Instant)
    ensures
      var s := Iso(t);
      && |s| == (if t.micro == 0 then 25 else 32)
      && s[..4] == Digits(t.year, 4) && s[5..7] == Digits(t.month, 2) && s[8..10] == Digits(t.day, 2)
      && s[11..13] == Digits(t.hour, 2) && s[14..16] == Digits(t.minute, 2) && s[17..19] == Digits(t.second, 2)
      && s[4] == s[7] == '-' && s[10] == 'T' && s[13] == s[16] == ':' && s[|s| - 6..] == "+00:00"
      && (t.micro != 0 ==> s[19] == '.' && s[20..26] == Digits(t.micro, 6))
  {
  }

  lemma {:induction false} SameHead(head: string, a: string, b: string)
    ensures TextLe(head + a, head + b) <==> TextLe(a, b)
  {
    if head == "" {
      assert head + a == a && head + b == b;
    } else {
      assert (head + a)[1..] == head[1..] + a && (head + b)[1..] == head[1..] + b;
      SameHead(head[1..], a, b);
    }
  }

  lemma OneChar(c: char, x: string, d: char, y: string)
    ensures TextLe([c] + x, [d] + y) <==> c < d || (c == d && TextLe(x, y))
  {
    assert ([c] + x)[1..] == x && ([d] + y)[1..] == y;
  }

  /** Numbers of one width compare as their text does, what follows deciding only where they are equal. */
  lemma {:induction false} DigitsCompare(n: nat, m: nat, w: nat, x: string, y: string)
    requires n < Power(w) && m < Power(w)
    ensures TextLe(Digits(n, w) + x, Digits(m, w) + y) <==> n < m || (n == m && TextLe(x, y))
  {
    if w == 0 {
      assert Digits(n, 0) + x == x && Digits(m, 0) + y == y;
    } else {
      var a, b := Digit(n % 10), Digit(m % 10);
      assert Digits(n, w) + x == Digits(n / 10, w - 1) + ([a] + x);
      assert Digits(m, w) + y == Digits(m / 10, w - 1) + ([b] + y);
      DigitsCompare(n / 10, m / 10, w - 1, [a] + x, [b] + y);
      OneChar(a, x, b, y);
    }
  }

  /** A field, its separator and the rest. */
  lemma FieldCompare(n: nat, m: nat, w: nat, sep: string, x: string, y: string)
    requires n < Power(w) && m < Power(w)
    ensures TextLe(Digits(n, w) + (sep + x), Digits(m, w) + (sep + y)) <==> n < m || (n == m && TextLe(x, y))
  {
    DigitsCompare(n, m, w, sep + x, sep + y);
    SameHead(sep, x, y);
  }

  lemma FractionCompare(a: nat, b: nat)
    requires a < 1_000_000 && b < 1_000_000
    ensures TextLe(Fraction(a), Fraction(b)) <==> a <= b
  {
    assert Power(6) == 1_000_000;
    if a != 0 && b != 0 {
      assert Fraction(a) == "." + (Digits(a, 6) + "+00:00") && Fraction(b) == "." + (Digits(b, 6) + "+00:00");
      SameHead(".", Digits(a, 6) + "+00:00", Digits(b, 6) + "+00:00");
      DigitsCompare(a, b, 6, "+00:00", "+00:00");
      TextLeTotal("+00:00", "+00:00");
    } else if a == 0 && b == 0 {
      TextLeTotal(Fraction(a), Fraction(b));
    } else {
      assert Fraction(a)[0] == (if a == 0 then '+' else '.') && Fraction(b)[0] == (if b == 0 then '+' else '.');
    }
  }

  function Clock(t: Instant): string {
    Digits(t.hour, 2) + (":" + (Digits(t.minute, 2) + (":" + (Digits(t.second, 2) + ("" + Fraction(t.micro))))))
  }

  lemma ClockCompare(a: Instant, b: Instant)
    requires Proper(a) && Proper(b)
    ensures TextLe(Clock(a), Clock(b)) <==>
            NoLater(a.(year := 0, month := 0, day := 0), b.(year := 0, month := 0, day := 0))
  {
    assert Power(2) == 100;
    FractionCompare(a.micro, b.micro);
    var x, y := Digits(a.second, 2) + ("" + Fraction(a.micro)), Digits(b.second, 2) + ("" + Fraction(b.micro));
    FieldCompare(a.second, b.second, 2, "", Fraction(a.micro), Fraction(b.micro));
    FieldCompare(a.minute, b.minute, 2, ":", x, y);
    FieldCompare(a.hour, b.hour, 2, ":", Digits(a.minute, 2) + (":" + x), Digits(b.minute, 2) + (":" + y));
  }

  lemma IsoParts(t: Instant)
    ensures Iso(t) == Digits(t.year, 4) + ("-" + (Digits(t.month, 2) + ("-" + (Digits(t.day, 2) + ("T" + Clock(t))))))
  {
  }

  /** The ISO text of two moments compares as the moments do. */
  lemma IsoSortsByTime(a: Instant, b: Instant)
    requires Proper(a) && Proper(b)
    ensures TextLe(Iso(a), Iso(b)) <==> NoLater(a, b)
  {
    assert Power(2) == 100 && Power(4) == 10_000;
    IsoParts(a);
    IsoParts(b);
    ClockCompare(a, b);
    var x, y := Digits(a.day, 2) + ("T" + Clock(a)), Digits(b.day, 2) + ("T" + Clock(b));
    FieldCompare(a.day, b.day, 2, "T", Clock(a), Clock(b));
    FieldCompare(a.month, b.month, 2, "-", x, y);
    FieldCompare(a.year, b.year, 4, "-", Digits(a.month, 2) + ("-" + x), Digits(b.month, 2) + ("-" + y));
  }
}
