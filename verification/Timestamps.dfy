/** The text form of UTC timestamps, as `datetime.isoformat()` writes them: the fraction is left
    out when the microseconds are zero.  SQLite compares TEXT byte by byte. */
module Timestamps {
  datatype Utc = Utc(year: nat, month: nat, day: nat, hour: nat, minute: nat, second: nat, micro: nat)

  predicate Valid(t: Utc) {
    && 1 <= t.year <= 9999 && 1 <= t.month <= 12 && 1 <= t.day <= 31
    && t.hour < 24 && t.minute < 60 && t.second < 60 && t.micro < 1000000
  }

  /** Chronological order: the first field that differs decides. */
  predicate Before(a: Utc, b: Utc) {
    if a.year != b.year then a.year < b.year
    else if a.month != b.month then a.month < b.month
    else if a.day != b.day then a.day < b.day
    else if a.hour != b.hour then a.hour < b.hour
    else if a.minute != b.minute then a.minute < b.minute
    else if a.second != b.second then a.second < b.second
    else a.micro < b.micro
  }

  function Pow10(w: nat): nat { if w == 0 then 1 else 10 * Pow10(w - 1) }

  /** n in decimal, zero-padded to w digits. */
  function Digits(n: nat, w: nat): (s: string)
    ensures |s| == w
  {
    if w == 0 then "" else Digits(n / 10, w - 1) + [(n % 10) as char + '0']
  }

  function Fraction(micro: nat): string {
    (if micro == 0 then "" else "." + Digits(micro, 6)) + "+00:00"
  }

  function IsoFormat(t: Utc): string {
    Digits(t.year, 4) + ("-" + (Digits(t.month, 2) + ("-" + (Digits(t.day, 2) + ("T" + (Digits(t.hour, 2) +
      (":" + (Digits(t.minute, 2) + (":" + (Digits(t.second, 2) + Fraction(t.micro)))))))))))
  }

  /** SQLite's `<` on TEXT (memcmp). */
  predicate ByteLess(s: string, t: string) {
    t != "" && (s == "" || s[0] < t[0] || (s[0] == t[0] && ByteLess(s[1..], t[1..])))
  }

  /** Two fields of equal width: the first one that differs decides. */
  lemma {:induction false} FieldDecides(x: string, y: string, s: string, t: string)
    requires |x| == |y|
    ensures ByteLess(x + s, y + t) <==> ByteLess(x, y) || (x == y && ByteLess(s, t))
  {
    if x == "" {
      assert x + s == s && y + t == t;
    } else {
      FieldDecides(x[1..], y[1..], s, t);
      assert (x + s)[1..] == x[1..] + s && (y + t)[1..] == y[1..] + t;
      assert x == y <==> x[0] == y[0] && x[1..] == y[1..];
    }
  }

  /** Zero-padded decimals compare as numbers. */
  lemma {:induction false} DigitsCompare(a: nat, b: nat, w: nat)
    requires a < Pow10(w) && b < Pow10(w)
    ensures ByteLess(Digits(a, w), Digits(b, w)) <==> a < b
    ensures Digits(a, w) == Digits(b, w) <==> a == b
  {
    if w > 0 {
      DigitsCompare(a / 10, b / 10, w - 1);
      var c, d := (a % 10) as char + '0', (b % 10) as char + '0';
      FieldDecides(Digits(a / 10, w - 1), Digits(b / 10, w - 1), [c], [d]);
      assert Digits(a, w)[..w - 1] == Digits(a / 10, w - 1) && Digits(a, w)[w - 1] == c;
      assert Digits(b, w)[..w - 1] == Digits(b / 10, w - 1) && Digits(b, w)[w - 1] == d;
      assert ByteLess([c], [d]) <==> a % 10 < b % 10;
    }
  }

  /** A numeric field followed by anything. */
  lemma NumberDecides(a: nat, b: nat, w: nat, s: string, t: string)
    requires a < Pow10(w) && b < Pow10(w)
    ensures ByteLess(Digits(a, w) + s, Digits(b, w) + t) <==> a < b || (a == b && ByteLess(s, t))
  {
    DigitsCompare(a, b, w);
    FieldDecides(Digits(a, w), Digits(b, w), s, t);
  }

  lemma SeparatorSkips(c: char, s: string, t: string)
    ensures ByteLess([c] + s, [c] + t) <==> ByteLess(s, t)
  {
    FieldDecides([c], [c], s, t);
    assert !ByteLess([c], [c]);
  }

  /** The omitted fraction sorts first, because '+' precedes '.'. */
  lemma FractionDecides(a: nat, b: nat)
    requires a < 1000000 && b < 1000000
    ensures ByteLess(Fraction(a), Fraction(b)) <==> a < b
  {
    var z := "+00:00";
    Irreflexive(z);
    if a > 0 && b > 0 {
      assert Fraction(a) == "." + (Digits(a, 6) + z) && Fraction(b) == "." + (Digits(b, 6) + z);
      SeparatorSkips('.', Digits(a, 6) + z, Digits(b, 6) + z);
      NumberDecides(a, b, 6, z, z);
    } else {
      assert a > 0 ==> Fraction(a)[0] == '.';
      assert b > 0 ==> Fraction(b)[0] == '.';
      assert a == 0 ==> Fraction(a) == z;
      assert b == 0 ==> Fraction(b) == z;
    }
  }

  lemma {:induction false} Irreflexive(s: string)
    ensures !ByteLess(s, s)
  {
    if s != "" { Irreflexive(s[1..]); }
  }

  /** Byte order of the text is time order, with or without a fraction on either side. */
  lemma TextOrderIsTimeOrder(a: Utc, b: Utc)
    requires Valid(a) && Valid(b)
    ensures ByteLess(IsoFormat(a), IsoFormat(b)) <==> Before(a, b)
  {
    assert Pow10(2) == 100 && Pow10(4) == 10000;
    FractionDecides(a.micro, b.micro);
    var a6, b6 := Digits(a.second, 2) + Fraction(a.micro), Digits(b.second, 2) + Fraction(b.micro);
    NumberDecides(a.second, b.second, 2, Fraction(a.micro), Fraction(b.micro));
    SeparatorSkips(':', a6, b6);
    var a5, b5 := Digits(a.minute, 2) + (":" + a6), Digits(b.minute, 2) + (":" + b6);
    NumberDecides(a.minute, b.minute, 2, ":" + a6, ":" + b6);
    SeparatorSkips(':', a5, b5);
    var a4, b4 := Digits(a.hour, 2) + (":" + a5), Digits(b.hour, 2) + (":" + b5);
    NumberDecides(a.hour, b.hour, 2, ":" + a5, ":" + b5);
    SeparatorSkips('T', a4, b4);
    var a3, b3 := Digits(a.day, 2) + ("T" + a4), Digits(b.day, 2) + ("T" + b4);
    NumberDecides(a.day, b.day, 2, "T" + a4, "T" + b4);
    SeparatorSkips('-', a3, b3);
    var a2, b2 := Digits(a.month, 2) + ("-" + a3), Digits(b.month, 2) + ("-" + b3);
    NumberDecides(a.month, b.month, 2, "-" + a3, "-" + b3);
    SeparatorSkips('-', a2, b2);
    NumberDecides(a.year, b.year, 4, "-" + a2, "-" + b2);
  }
}
