/**
 * SQLite keeps instants as text, in UTC, with the trailing zeros of the fraction dropped, and compares them
 * as text. That order is the order of time except inside one second.
 */
module SqliteTime {
  import opened Text

  /** An instant in UTC; the numbers are those of the calendar and the clock. */
  datatype Instant = Instant(year: nat, month: nat, day: nat, hour: nat, minute: nat, second: nat, nano: nat)

  predicate Proper(t: Instant) {
    t.year < 10000 && t.month < 100 && t.day < 100 && t.hour < 100 && t.minute < 100 && t.second < 100
        && t.nano < 1_000_000_000
  }

  predicate SameDay(a: Instant, b: Instant) {
    a.year == b.year && a.month == b.month && a.day == b.day
  }

  predicate EarlierDay(a: Instant, b: Instant) {
    a.year < b.year || (a.year == b.year && (a.month < b.month || (a.month == b.month && a.day < b.day)))
  }

  predicate SameClock(a: Instant, b: Instant) {
    a.hour == b.hour && a.minute == b.minute && a.second == b.second
  }

  predicate EarlierClock(a: Instant, b: Instant) {
    a.hour < b.hour || (a.hour == b.hour && (a.minute < b.minute || (a.minute == b.minute && a.second < b.second)))
  }

  predicate SameSecond(a: Instant, b: Instant) {
    SameDay(a, b) && SameClock(a, b)
  }

  /** The order of time. */
  predicate Before(a: Instant, b: Instant) {
    EarlierDay(a, b) || (SameDay(a, b) && (EarlierClock(a, b) || (SameClock(a, b) && a.nano < b.nano)))
  }

  function Power(w: nat): nat {
    if w == 0 then 1 else 10 * Power(w - 1)
  }

  /** `n` with exactly `w` digits. */
  function Fixed(n: nat, w: nat): (r: string)
    ensures |r| == w
    decreases w
  {
    if w == 0 then "" else Fixed(n / 10, w - 1) + [Digit(n % 10)]
  }

  function Strip(digits: string): string
    decreases |digits|
  {
    if digits == "" || digits[|digits| - 1] != '0' then digits else Strip(digits[..|digits| - 1])
  }

  /** The digits of the fraction, without trailing zeros. */
  function Fraction(t: Instant): string {
    Strip(Fixed(t.nano, 9))
  }

  function DateThen(t: Instant, rest: string): string {
    Fixed(t.year, 4) + ("-" + (Fixed(t.month, 2) + ("-" + (Fixed(t.day, 2) + rest))))
  }

  function ClockThen(t: Instant, rest: string): string {
    "T" + (Fixed(t.hour, 2) + (":" + (Fixed(t.minute, 2) + (":" + (Fixed(t.second, 2) + rest)))))
  }

  function Tail(fraction: string): string {
    (if fraction == "" then "" else "." + fraction) + "Z"
  }

  /** `formatTime`: RFC 3339 with up to nine digits of a second. */
  function FormatTime(t: Instant): string {
    DateThen(t, ClockThen(t, Tail(Fraction(t))))
  }

  // ---------------------------------------------------------------- text order

  lemma {:induction false} CommonFront(p: string, a: string, b: string)
    ensures TextBefore(p + a, p + b) <==> TextBefore(a, b)
    decreases |p|
  {
    if p == "" {
      assert p + a == a && p + b == b;
    } else {
      CommonFront(p[1..], a, b);
      assert (p + a)[1..] == p[1..] + a && (p + b)[1..] == p[1..] + b;
    }
  }

  /** A difference in the front decides. */
  lemma {:induction false} FrontDecides(a: string, b: string, x: string, y: string)
    requires |a| == |b| && a != b
    ensures TextBefore(a + x, b + y) <==> TextBefore(a, b)
    decreases |a|
  {
    assert (a + x)[1..] == a[1..] + x && (b + y)[1..] == b[1..] + y;
    if a[0] == b[0] {
      assert a == [a[0]] + a[1..] && b == [b[0]] + b[1..];
      FrontDecides(a[1..], b[1..], x, y);
    }
  }

  lemma Digits(m: nat, n: nat)
    requires m < 10 && n < 10
    ensures Digit(m) < Digit(n) <==> m < n
    ensures Digit(m) == Digit(n) <==> m == n
  {
  }

  lemma Tenths(n: nat, w: nat)
    requires w > 0 && n < Power(w)
    ensures n / 10 < Power(w - 1) && n == 10 * (n / 10) + n % 10
  {
  }

  lemma {:induction false} FixedOrder(m: nat, n: nat, w: nat)
    requires m < Power(w) && n < Power(w)
    ensures TextBefore(Fixed(m, w), Fixed(n, w)) <==> m < n
    ensures Fixed(m, w) == Fixed(n, w) <==> m == n
    decreases w
  {
    if w > 0 {
      Tenths(m, w);
      Tenths(n, w);
      FixedOrder(m / 10, n / 10, w - 1);
      var a, b := Fixed(m / 10, w - 1), Fixed(n / 10, w - 1);
      var c, d := Digit(m % 10), Digit(n % 10);
      Digits(m % 10, n % 10);
      LastDigit(a, b, c, d);
    }
  }

  lemma LastDigit(a: string, b: string, c: char, d: char)
    requires |a| == |b|
    ensures TextBefore(a + [c], b + [d]) <==> TextBefore(a, b) || (a == b && c < d)
    ensures a + [c] == b + [d] <==> a == b && c == d
  {
    assert (a + [c])[..|a|] == a && (b + [d])[..|b|] == b;
    assert (a + [c])[|a|] == c && (b + [d])[|b|] == d;
    if a == b {
      CommonFront(a, [c], [d]);
      TextOrder(a, a);
    } else {
      FrontDecides(a, b, [c], [d]);
    }
  }

  /** One number, a separator and what follows. */
  lemma PartThenRest(m: nat, n: nat, w: nat, x: string, y: string)
    requires m < Power(w) && n < Power(w)
    ensures TextBefore(Fixed(m, w) + x, Fixed(n, w) + y) <==> m < n || (m == n && TextBefore(x, y))
  {
    FixedOrder(m, n, w);
    if m == n {
      CommonFront(Fixed(m, w), x, y);
    } else {
      FrontDecides(Fixed(m, w), Fixed(n, w), x, y);
    }
  }

  lemma SeparatedPart(sep: string, m: nat, n: nat, x: string, y: string)
    requires m < 100 && n < 100
    ensures TextBefore(sep + (Fixed(m, 2) + x), sep + (Fixed(n, 2) + y)) <==> m < n || (m == n && TextBefore(x, y))
  {
    assert Power(2) == 100;
    CommonFront(sep, Fixed(m, 2) + x, Fixed(n, 2) + y);
    PartThenRest(m, n, 2, x, y);
  }

  lemma ClockOrder(a: Instant, b: Instant, x: string, y: string)
    requires Proper(a) && Proper(b)
    ensures TextBefore(ClockThen(a, x), ClockThen(b, y))
       <==> EarlierClock(a, b) || (SameClock(a, b) && TextBefore(x, y))
  {
    SeparatedPart(":", a.second, b.second, x, y);
    var x1, y1 := ":" + (Fixed(a.second, 2) + x), ":" + (Fixed(b.second, 2) + y);
    SeparatedPart(":", a.minute, b.minute, x1, y1);
    SeparatedPart("T", a.hour, b.hour, ":" + (Fixed(a.minute, 2) + x1), ":" + (Fixed(b.minute, 2) + y1));
  }

  lemma DateOrder(a: Instant, b: Instant, x: string, y: string)
    requires Proper(a) && Proper(b)
    ensures TextBefore(DateThen(a, x), DateThen(b, y)) <==> EarlierDay(a, b) || (SameDay(a, b) && TextBefore(x, y))
  {
    SeparatedPart("-", a.day, b.day, x, y);
    var x1, y1 := "-" + (Fixed(a.day, 2) + x), "-" + (Fixed(b.day, 2) + y);
    SeparatedPart("-", a.month, b.month, x1, y1);
    YearsFit(a.year);
    YearsFit(b.year);
    PartThenRest(a.year, b.year, 4, "-" + (Fixed(a.month, 2) + x1), "-" + (Fixed(b.month, 2) + y1));
  }

  lemma YearsFit(y: nat)
    requires y < 10000
    ensures y < Power(4)
  {
    assert Power(4) == 10 * Power(3) == 100 * Power(2) == 10000;
  }

  /** Down to the second, the order of the texts is the order of time. */
  lemma SecondsOrder(a: Instant, b: Instant, x: string, y: string)
    requires Proper(a) && Proper(b)
    ensures TextBefore(DateThen(a, ClockThen(a, x)), DateThen(b, ClockThen(b, y)))
      <==> EarlierDay(a, b) || (SameDay(a, b) && (EarlierClock(a, b) || (SameClock(a, b) && TextBefore(x, y))))
  {
    ClockOrder(a, b, x, y);
    DateOrder(a, b, ClockThen(a, x), ClockThen(b, y));
  }

  // ---------------------------------------------------------------- fractions

  predicate AllDigits(s: string) {
    forall i :: 0 <= i < |s| ==> '0' <= s[i] <= '9'
  }

  /** `a` continues to `b`. */
  predicate Continues(a: string, b: string) {
    |a| < |b| && a == b[..|a|]
  }

  lemma {:induction false} FixedDigits(n: nat, w: nat)
    ensures AllDigits(Fixed(n, w))
    decreases w
  {
    if w > 0 {
      FixedDigits(n / 10, w - 1);
    }
  }

  lemma {:induction false} StripKeeps(s: string)
    ensures Strip(s) <= s && (Strip(s) == "" || Strip(s)[|Strip(s)| - 1] != '0')
    ensures forall i :: |Strip(s)| <= i < |s| ==> s[i] == '0'
    decreases |s|
  {
    if s != "" && s[|s| - 1] == '0' {
      StripKeeps(s[..|s| - 1]);
    }
  }

  /** Stripping zeros at the end does not disturb the order of digits of equal length. */
  lemma {:induction false} StrippedOrder(a: string, b: string, s: string, t: string)
    requires AllDigits(a) && AllDigits(b) && |a| == |b|
    requires s <= a && (forall i :: |s| <= i < |a| ==> a[i] == '0') && (s == "" || s[|s| - 1] != '0')
    requires t <= b && (forall i :: |t| <= i < |b| ==> b[i] == '0') && (t == "" || t[|t| - 1] != '0')
    ensures TextBefore(a, b) <==> TextBefore(s, t)
    decreases |a|
  {
    if s == "" && t == "" {
      assert a == b;
      TextOrder(a, b);
    } else if s != "" && t != "" && a[0] == b[0] {
      assert s[0] == a[0] && t[0] == b[0];
      StrippedOrder(a[1..], b[1..], s[1..], t[1..]);
    } else if s == "" || t == "" {
      ZerosAndDigits(a, b, s, t);
    }
  }

  /** All zeros come before anything else. */
  lemma {:induction false} ZerosAndDigits(a: string, b: string, s: string, t: string)
    requires AllDigits(a) && AllDigits(b) && |a| == |b| && (s == "") != (t == "")
    requires s <= a && (forall i :: |s| <= i < |a| ==> a[i] == '0') && (s == "" || s[|s| - 1] != '0')
    requires t <= b && (forall i :: |t| <= i < |b| ==> b[i] == '0') && (t == "" || t[|t| - 1] != '0')
    ensures TextBefore(a, b) <==> s == ""
    decreases |a|
  {
    assert s != "" ==> s[0] == a[0];
    assert t != "" ==> t[0] == b[0];
    if a[0] == b[0] {
      assert a[0] == '0';
      if s == "" {
        assert |t| > 1;
        ZerosAndDigits(a[1..], b[1..], "", t[1..]);
      } else {
        assert |s| > 1;
        ZerosAndDigits(a[1..], b[1..], s[1..], "");
      }
    }
  }

  /** Between a fraction and its continuation, the 'Z' that ends a text comes after any digit. */
  lemma {:induction false} DigitsThenZ(s: string, t: string)
    requires AllDigits(s) && AllDigits(t)
    ensures TextBefore(s + "Z", t + "Z") <==> (TextBefore(s, t) && !Continues(s, t)) || Continues(t, s)
    decreases |s|
  {
    if s != "" && t != "" {
      assert (s + "Z")[1..] == s[1..] + "Z" && (t + "Z")[1..] == t[1..] + "Z";
      assert s == [s[0]] + s[1..] && t == [t[0]] + t[1..];
      DigitsThenZ(s[1..], t[1..]);
      ContinuesTail(s, t);
      ContinuesTail(t, s);
    } else if s == "" && t != "" {
      assert s + "Z" == "Z" && (t + "Z")[0] == t[0] <= '9';
    } else if s != "" {
      assert t + "Z" == "Z" && (s + "Z")[0] == s[0] <= '9';
      assert Continues(t, s);
    } else {
      TextOrder("Z", "Z");
    }
  }

  lemma ContinuesTail(s: string, t: string)
    requires s != "" && t != ""
    ensures Continues(s, t) <==> s[0] == t[0] && Continues(s[1..], t[1..])
  {
    if |s| < |t| {
      assert t[..|s|] == [t[0]] + t[1..][..|s| - 1];
      assert s == [s[0]] + s[1..];
    }
  }

  lemma TailOrder(s: string, t: string)
    requires AllDigits(s) && AllDigits(t)
    ensures TextBefore(Tail(s), Tail(t)) <==> (TextBefore(s, t) && !Continues(s, t)) || Continues(t, s)
  {
    DigitsThenZ(s, t);
    if s != "" && t != "" {
      assert Tail(s) == "." + (s + "Z") && Tail(t) == "." + (t + "Z");
      CommonFront(".", s + "Z", t + "Z");
    } else if s == "" && t != "" {
      assert Tail(s) == "Z" && Tail(t)[0] == '.';
    } else if s != "" {
      assert Tail(t) == "Z" && Tail(s)[0] == '.';
    }
  }

  lemma FractionOrder(a: Instant, b: Instant)
    requires Proper(a) && Proper(b)
    ensures AllDigits(Fraction(a)) && AllDigits(Fraction(b))
    ensures TextBefore(Fraction(a), Fraction(b)) <==> a.nano < b.nano
  {
    var x, y := Fixed(a.nano, 9), Fixed(b.nano, 9);
    NanosFit();
    FixedOrder(a.nano, b.nano, 9);
    FixedDigits(a.nano, 9);
    FixedDigits(b.nano, 9);
    StripKeeps(x);
    StripKeeps(y);
    StrippedOrder(x, y, Strip(x), Strip(y));
  }

  lemma NanosFit()
    ensures Power(9) == 1_000_000_000
  {
    assert Power(3) == 1000;
    assert Power(6) == 10 * Power(5) == 100 * Power(4) == 1000 * Power(3);
    assert Power(9) == 10 * Power(8) == 100 * Power(7) == 1000 * Power(6);
  }

  // ---------------------------------------------------------------- the result

  /** The one exception: the same second, and one fraction's digits continue the other's. */
  predicate Misordered(a: Instant, b: Instant) {
    SameSecond(a, b) && (Continues(Fraction(a), Fraction(b)) || Continues(Fraction(b), Fraction(a)))
  }

  lemma {:induction false} ContinuationIsLater(s: string, t: string)
    requires Continues(s, t)
    ensures TextBefore(s, t)
    decreases |s|
  {
    if s != "" {
      ContinuesTail(s, t);
      ContinuationIsLater(s[1..], t[1..]);
    }
  }

  lemma FractionTails(a: Instant, b: Instant)
    requires Proper(a) && Proper(b)
    ensures TextBefore(Tail(Fraction(a)), Tail(Fraction(b)))
      <==> (a.nano < b.nano && !Continues(Fraction(a), Fraction(b))) || Continues(Fraction(b), Fraction(a))
    ensures Continues(Fraction(a), Fraction(b)) ==> a.nano < b.nano
  {
    FractionOrder(a, b);
    TailOrder(Fraction(a), Fraction(b));
    if Continues(Fraction(a), Fraction(b)) {
      ContinuationIsLater(Fraction(a), Fraction(b));
    }
  }

  /** Comparing texts orders two instants as time does, exactly but for that case, where it turns them round. */
  lemma TextOrderIsTimeOrderExactly(a: Instant, b: Instant)
    requires Proper(a) && Proper(b)
    ensures (TextBefore(FormatTime(a), FormatTime(b)) <==> Before(a, b)) <==> !Misordered(a, b)
  {
    SecondsOrder(a, b, Tail(Fraction(a)), Tail(Fraction(b)));
    FractionTails(a, b);
    FractionTails(b, a);
  }

  /** The session lookup's `expires_at > now`, on texts. */
  predicate Unexpired(expiry: Instant, now: Instant) {
    TextBefore(FormatTime(now), FormatTime(expiry))
  }

  /** The lookup may err only within the second in which the session runs out. */
  lemma ExpiryIsExactToTheSecond(expiry: Instant, now: Instant)
    requires Proper(expiry) && Proper(now) && !SameSecond(expiry, now)
    ensures Unexpired(expiry, now) <==> Before(now, expiry)
  {
    TextOrderIsTimeOrderExactly(now, expiry);
  }

  /**
   * The revocation's WHERE clause, `revoked_at > now` on texts, lets a key's date move later only within the
   * second of the date it had.
   */
  lemma RevocationMovesWithinASecond(was: Instant, now: Instant)
    requires Proper(was) && Proper(now) && TextBefore(FormatTime(now), FormatTime(was))
    ensures Before(now, was) || SameSecond(now, was)
  {
    if !SameSecond(now, was) {
      TextOrderIsTimeOrderExactly(now, was);
    }
  }

  /** It may: a date on the full second gives way to one half a second later. */
  lemma RevocationMovesLater()
    ensures var was := Instant(2024, 1, 1, 12, 0, 0, 0);
      var now := Instant(2024, 1, 1, 12, 0, 0, 500_000_000);
      TextBefore(FormatTime(now), FormatTime(was)) && Before(was, now)
  {
    HalfASecondTooLong();
  }

  /** Half a second late, a session that ran out on the full second still passes. */
  lemma HalfASecondTooLong()
    ensures var expiry := Instant(2024, 1, 1, 12, 0, 0, 0);
      var now := Instant(2024, 1, 1, 12, 0, 0, 500_000_000);
      Unexpired(expiry, now) && Before(expiry, now)
  {
    var expiry := Instant(2024, 1, 1, 12, 0, 0, 0);
    var now := Instant(2024, 1, 1, 12, 0, 0, 500_000_000);
    SecondsOrder(now, expiry, Tail(Fraction(now)), Tail(Fraction(expiry)));
    FractionTails(now, expiry);
    FractionTails(expiry, now);
    FractionOrder(expiry, now);
    NoFraction(expiry);
  }

  lemma NoFraction(t: Instant)
    requires t.nano == 0
    ensures Fraction(t) == ""
  {
    ZeroFixed(9);
    StripZeros(Fixed(0, 9));
  }

  lemma {:induction false} ZeroFixed(w: nat)
    ensures forall i :: 0 <= i < w ==> Fixed(0, w)[i] == '0'
  {
    if w > 0 {
      ZeroFixed(w - 1);
    }
  }

  lemma {:induction false} StripZeros(s: string)
    requires forall i :: 0 <= i < |s| ==> s[i] == '0'
    ensures Strip(s) == ""
    decreases |s|
  {
    if s != "" {
      StripZeros(s[..|s| - 1]);
    }
  }
}
