/** `new_kid` of `pkg/jwt_manager.rs`: generated key ids sort by age. */
module Kids {
  import opened Wrappers
  import opened Text
  import opened Secret
  import SigningKeys

  // ------------------------------------------------------------- the calendar

  /** A UTC date and time of day, to the second, in a year that prints with four digits. */
  datatype Moment = Moment(year: int, month: int, day: int, hour: int, minute: int, second: int)

  predicate IsLeap(year: int) { year % 4 == 0 && (year % 100 != 0 || year % 400 == 0) }

  function DaysInMonth(year: int, month: int): int {
    if month == 2 then (if IsLeap(year) then 29 else 28)
    else if month in {4, 6, 9, 11} then 30
    else 31
  }

  predicate IsMoment(m: Moment) {
    && 1 <= m.year <= 9999 && 1 <= m.month <= 12 && 1 <= m.day <= DaysInMonth(m.year, m.month)
    && 0 <= m.hour < 24 && 0 <= m.minute < 60 && 0 <= m.second < 60
  }

  /** Days between 1 January of year 1 and 1 January of a year. */
  function DaysBeforeYear(year: int): int {
    var y := year - 1;
    365 * y + y / 4 - y / 100 + y / 400
  }

  /** Days of a year before the first of a month. */
  function DaysBeforeMonth(year: int, month: int): int
    requires 1 <= month <= 12
    decreases month
  {
    if month == 1 then 0 else DaysBeforeMonth(year, month - 1) + DaysInMonth(year, month - 1)
  }

  function DayNumber(m: Moment): int
    requires IsMoment(m)
  {
    DaysBeforeYear(m.year) + DaysBeforeMonth(m.year, m.month) + m.day - 1
  }

  /** Seconds since the start of year 1: the time a moment stands for. */
  function Instant(m: Moment): int
    requires IsMoment(m)
  {
    ((DayNumber(m) * 24 + m.hour) * 60 + m.minute) * 60 + m.second
  }

  lemma {:induction false} MonthsAddUp(year: int, month: int, later: int)
    requires 1 <= month < later <= 12
    ensures DaysBeforeMonth(year, month) + DaysInMonth(year, month) <= DaysBeforeMonth(year, later)
    decreases later
  {
    if month < later - 1 {
      MonthsAddUp(year, month, later - 1);
    }
  }

  lemma {:induction false} YearsAddUp(year: int, later: int)
    requires 1 <= year < later
    ensures DaysBeforeYear(year) + (if IsLeap(year) then 366 else 365) <= DaysBeforeYear(later)
    decreases later
  {
    OneYear(later - 1);
    if year < later - 1 {
      YearsAddUp(year, later - 1);
    }
  }

  lemma OneYear(year: int)
    requires 1 <= year
    ensures DaysBeforeYear(year + 1) - DaysBeforeYear(year) == if IsLeap(year) then 366 else 365
  {
    NextMultiple(year, 4);
    NextMultiple(year, 100);
    NextMultiple(year, 400);
    if year % 100 == 0 {
      MultipleOf100(year);
    }
    if year % 400 == 0 {
      MultipleOf400(year);
    }
  }

  /** The quotient steps up exactly at a multiple. */
  lemma NextMultiple(n: int, k: int)
    requires n >= 1 && k in {4, 100, 400}
    ensures n / k - (n - 1) / k == if n % k == 0 then 1 else 0
  {
  }

  lemma MultipleOf100(n: int)
    requires n % 100 == 0
    ensures n % 4 == 0
  {
    assert n == 4 * (25 * (n / 100));
  }

  lemma MultipleOf400(n: int)
    requires n % 400 == 0
    ensures n % 100 == 0
  {
    assert n == 100 * (4 * (n / 400));
  }

  lemma DayFitsYear(m: Moment)
    requires IsMoment(m)
    ensures DaysBeforeMonth(m.year, m.month) + m.day <= if IsLeap(m.year) then 366 else 365
  {
    if m.month < 12 {
      MonthsAddUp(m.year, m.month, 12);
    }
    YearLength(m.year);
  }

  lemma YearLength(year: int)
    ensures DaysBeforeMonth(year, 12) + 31 == if IsLeap(year) then 366 else 365
  {
    assert DaysBeforeMonth(year, 4) == DaysBeforeMonth(year, 2) + DaysInMonth(year, 2) + 31;
    assert DaysBeforeMonth(year, 7) == DaysBeforeMonth(year, 4) + 30 + 31 + 30;
    assert DaysBeforeMonth(year, 10) == DaysBeforeMonth(year, 7) + 31 + 31 + 30;
  }

  // ------------------------------------------------------------- printing

  function Digit(n: int): char
    requires 0 <= n < 10
  {
    "0123456789"[n]
  }

  function TwoDigits(n: int): string
    requires 0 <= n < 100
  {
    [Digit(n / 10), Digit(n % 10)]
  }

  /** `%Y%m%dT%H%M%S`, piece by piece. */
  function Pieces(m: Moment): seq<string>
    requires IsMoment(m)
  {
    [TwoDigits(m.year / 100), TwoDigits(m.year % 100), TwoDigits(m.month), TwoDigits(m.day), "T",
     TwoDigits(m.hour), TwoDigits(m.minute), TwoDigits(m.second)]
  }

  function Flat(pieces: seq<string>): string {
    if pieces == [] then "" else pieces[0] + Flat(pieces[1..])
  }

  /** The first eight characters of a generated token, made free of '-' and '_'. */
  function Suffix(random: Bytes32): string {
    SecretShape(random, random);
    var token := Encode(random);
    seq(8, i requires 0 <= i < 8 => if token[i] == '-' || token[i] == '_' then 'x' else token[i])
  }

  function NewKid(now: Moment, random: Bytes32): string
    requires IsMoment(now)
  {
    Flat(Pieces(now)) + "-" + Suffix(random)
  }

  // ------------------------------------------------------------- fields decide the order

  /** Year first, second last: the first field that differs decides. */
  predicate EarlierDay(a: Moment, b: Moment) {
    a.year < b.year || (a.year == b.year && (a.month < b.month || (a.month == b.month && a.day < b.day)))
  }

  predicate SameDay(a: Moment, b: Moment) { a.year == b.year && a.month == b.month && a.day == b.day }

  predicate EarlierFields(a: Moment, b: Moment) {
    || EarlierDay(a, b)
    || (SameDay(a, b) &&
        (a.hour < b.hour
         || (a.hour == b.hour && (a.minute < b.minute || (a.minute == b.minute && a.second < b.second)))))
  }

  lemma EarlierDayComesFirst(a: Moment, b: Moment)
    requires IsMoment(a) && IsMoment(b) && EarlierDay(a, b)
    ensures DayNumber(a) < DayNumber(b)
  {
    if a.year < b.year {
      YearsAddUp(a.year, b.year);
      DayFitsYear(a);
      MonthsStart(b.year, b.month);
    } else if a.month < b.month {
      MonthsAddUp(a.year, a.month, b.month);
    }
  }

  /** Reading off the fields in order agrees with time. */
  lemma EarlierFieldsAreEarlier(a: Moment, b: Moment)
    requires IsMoment(a) && IsMoment(b) && EarlierFields(a, b)
    ensures Instant(a) < Instant(b)
  {
    if EarlierDay(a, b) {
      EarlierDayComesFirst(a, b);
    }
  }

  lemma {:induction false} MonthsStart(year: int, month: int)
    requires 1 <= month <= 12
    ensures DaysBeforeMonth(year, month) >= 0
    decreases month
  {
    if month > 1 {
      MonthsStart(year, month - 1);
    }
  }

  // ------------------------------------------------------------- kids sort by age

  lemma TwoDigitsOrder(a: int, b: int)
    requires 0 <= a < b < 100
    ensures Less(TwoDigits(a), TwoDigits(b))
  {
    assert a / 10 < b / 10 || (a / 10 == b / 10 && a % 10 < b % 10);
    assert TwoDigits(a)[1..] == [Digit(a % 10)] && TwoDigits(b)[1..] == [Digit(b % 10)];
  }

  /** The first piece that differs decides the order, whatever follows, as pieces have fixed widths. */
  lemma {:induction false} FirstPieceDecides(a: seq<string>, b: seq<string>, k: nat, x: string, y: string)
    requires k < |a| == |b| && Less(a[k], b[k]) && |a[k]| == |b[k]|
    requires forall i :: 0 <= i < k ==> a[i] == b[i]
    ensures Less(Flat(a) + x, Flat(b) + y)
  {
    assert Flat(a) + x == a[0] + (Flat(a[1..]) + x) && Flat(b) + y == b[0] + (Flat(b[1..]) + y);
    if k == 0 {
      LessByPrefix(a[0], b[0], Flat(a[1..]) + x, Flat(b[1..]) + y);
    } else {
      FirstPieceDecides(a[1..], b[1..], k - 1, x, y);
      LessAfterPrefix(a[0], Flat(a[1..]) + x, Flat(b[1..]) + y);
    }
  }

  /** The first piece that differs holds the smaller of two numbers. */
  lemma SmallerPieceDecides(a: seq<string>, b: seq<string>, k: nat, m: int, n: int, x: string, y: string)
    requires k < |a| == |b| && 0 <= m < n < 100 && a[k] == TwoDigits(m) && b[k] == TwoDigits(n)
    requires forall i :: 0 <= i < k ==> a[i] == b[i]
    ensures Less(Flat(a) + x, Flat(b) + y)
  {
    TwoDigitsOrder(m, n);
    FirstPieceDecides(a, b, k, x, y);
  }

  lemma EarlierFieldsSortFirst(a: Moment, b: Moment, x: string, y: string)
    requires IsMoment(a) && IsMoment(b) && EarlierFields(a, b)
    ensures Less(Flat(Pieces(a)) + x, Flat(Pieces(b)) + y)
  {
    hide TwoDigits, Less, Flat;
    var p, q := Pieces(a), Pieces(b);
    if a.year != b.year {
      if a.year / 100 < b.year / 100 {
        SmallerPieceDecides(p, q, 0, a.year / 100, b.year / 100, x, y);
      } else {
        SmallerPieceDecides(p, q, 1, a.year % 100, b.year % 100, x, y);
      }
    } else if a.month != b.month {
      SmallerPieceDecides(p, q, 2, a.month, b.month, x, y);
    } else if a.day != b.day {
      SmallerPieceDecides(p, q, 3, a.day, b.day, x, y);
    } else if a.hour != b.hour {
      SmallerPieceDecides(p, q, 5, a.hour, b.hour, x, y);
    } else if a.minute != b.minute {
      SmallerPieceDecides(p, q, 6, a.minute, b.minute, x, y);
    } else {
      SmallerPieceDecides(p, q, 7, a.second, b.second, x, y);
    }
  }

  lemma EarlierKidSortsFirst(a: Moment, b: Moment, ra: Bytes32, rb: Bytes32)
    requires IsMoment(a) && IsMoment(b) && EarlierFields(a, b)
    ensures Instant(a) < Instant(b) && Less(NewKid(a, ra), NewKid(b, rb))
  {
    hide Less, Flat, Pieces, Instant, Suffix;
    var x, y := "-" + Suffix(ra), "-" + Suffix(rb);
    assert NewKid(a, ra) == Flat(Pieces(a)) + x && NewKid(b, rb) == Flat(Pieces(b)) + y;
    EarlierFieldsAreEarlier(a, b);
    EarlierFieldsSortFirst(a, b, x, y);
  }

  /** Generated kids sort by age: the earlier second comes first, whatever the random suffixes. */
  lemma KidsSortByAge(a: Moment, b: Moment, ra: Bytes32, rb: Bytes32)
    requires IsMoment(a) && IsMoment(b) && Instant(a) != Instant(b)
    ensures Less(NewKid(a, ra), NewKid(b, rb)) <==> Instant(a) < Instant(b)
  {
    hide Less, NewKid, Instant;
    if EarlierFields(a, b) {
      EarlierKidSortsFirst(a, b, ra, rb);
    } else {
      assert a != b && EarlierFields(b, a);
      EarlierKidSortsFirst(b, a, rb, ra);
      LessAsymmetric(NewKid(b, rb), NewKid(a, ra));
    }
  }

  predicate Alphanumeric(s: string) { forall c <- s :: IsAsciiAlphanumeric(c) }

  lemma {:induction false} FlatChars(pieces: seq<string>)
    requires forall piece <- pieces :: Alphanumeric(piece)
    ensures Alphanumeric(Flat(pieces))
  {
    if pieces != [] {
      assert pieces[0] in pieces;
      forall piece | piece in pieces[1..] ensures Alphanumeric(piece) {
        assert piece in pieces;
      }
      FlatChars(pieces[1..]);
    }
  }

  lemma TwoDigitsChars(n: int)
    requires 0 <= n < 100
    ensures Alphanumeric(TwoDigits(n))
  {
    assert forall i :: 0 <= i < 10 ==> '0' <= Digit(i) <= '9';
  }

  lemma PieceChars(m: Moment)
    requires IsMoment(m)
    ensures forall piece <- Pieces(m) :: Alphanumeric(piece)
  {
    TwoDigitsChars(m.year / 100);
    TwoDigitsChars(m.year % 100);
    TwoDigitsChars(m.month);
    TwoDigitsChars(m.day);
    assert Alphanumeric("T");
    TwoDigitsChars(m.hour);
    TwoDigitsChars(m.minute);
    TwoDigitsChars(m.second);
    hide Alphanumeric, TwoDigits;
  }

  lemma SuffixChars(random: Bytes32)
    ensures Alphanumeric(Suffix(random))
  {
    SecretShape(random, random);
    forall c | c in Suffix(random) ensures IsAsciiAlphanumeric(c) {
      var i :| 0 <= i < 8 && Suffix(random)[i] == c;
      assert Encode(random)[i] in Encode(random);
    }
  }

  /** Every generated kid passes the check on loading. */
  lemma GeneratedKidIsKid(now: Moment, random: Bytes32)
    requires IsMoment(now)
    ensures SigningKeys.IsKid(NewKid(now, random))
  {
    hide Flat, Pieces, Suffix;
    PieceChars(now);
    FlatChars(Pieces(now));
    SuffixChars(random);
    assert '-' in NewKid(now, random);
  }

  // ------------------------------------------------------------- the default active key

  datatype Generated = Generated(at: Moment, random: Bytes32, pem: string)

  function Pem(g: Generated): (string, string)
    requires IsMoment(g.at)
  {
    (NewKid(g.at, g.random), g.pem)
  }

  /** Without SIGNING_ACTIVE_KID, the newest generated key signs. */
  lemma DefaultKeyIsNewest(parsePem: string -> Option<SigningKeys.KeyPair>, generated: seq<Generated>,
                           newest: Generated)
    requires forall g <- generated :: IsMoment(g.at) && parsePem(g.pem).Some?
    requires newest in generated
    requires forall g <- generated :: g == newest || Instant(g.at) < Instant(newest.at)
    ensures var pems := seq(|generated|, i requires 0 <= i < |generated| => Pem(generated[i]));
            && SigningKeys.Loaded(parsePem, pems, None).Ok?
            && var loaded := SigningKeys.Loaded(parsePem, pems, None).value;
            && loaded.active < |loaded.keys|
            && loaded.keys[loaded.active]
                 == SigningKeys.Key(NewKid(newest.at, newest.random), parsePem(newest.pem).value)
  {
    hide NewKid, Less, Instant, IsMoment, SigningKeys.IsKid, SigningKeys.SortByKid, SigningKeys.Parsed;
    var pems := seq(|generated|, i requires 0 <= i < |generated| => Pem(generated[i]));
    forall p | p in pems ensures SigningKeys.IsKid(p.0) && parsePem(p.1).Some? {
      var i :| 0 <= i < |pems| && pems[i] == p;
      GeneratedKidIsKid(generated[i].at, generated[i].random);
    }
    var n :| 0 <= n < |generated| && generated[n] == newest;
    assert pems[n] == Pem(newest);
    SigningKeys.LoadsExactly(parsePem, pems, None);
    SigningKeys.LoadedKeys(parsePem, pems, None);
    var loaded := SigningKeys.Loaded(parsePem, pems, None).value;
    var active := loaded.keys[loaded.active];
    assert active in loaded.keys;
    var p :| p in pems && active == SigningKeys.Key(p.0, parsePem(p.1).value);
    var i :| 0 <= i < |pems| && pems[i] == p;
    if generated[i] != newest {
      KidsSortByAge(generated[i].at, newest.at, generated[i].random, newest.random);
    }
  }
}
