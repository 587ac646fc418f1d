/** String operations of Rust's standard library that the server relies on. */
module Text {

  // ------------------------------------------------------------- split/join

  /** `str::split` on one separator character: always at least one part. */
  function Split(s: string, sep: char): (parts: seq<string>)
    ensures |parts| > 0
    ensures forall part <- parts :: sep !in part
  {
    if s == "" then [""]
    else if s[0] == sep then [""] + Split(s[1..], sep)
    else
      var rest := Split(s[1..], sep);
      [[s[0]] + rest[0]] + rest[1..]
  }

  /** `[..].join(sep)` for a one-character separator. */
  function Join(parts: seq<string>, sep: char): string {
    if parts == [] then ""
    else if |parts| == 1 then parts[0]
    else parts[0] + [sep] + Join(parts[1..], sep)
  }

  lemma {:induction false} SplitSingle(part: string, sep: char)
    requires sep !in part
    ensures Split(part, sep) == [part]
  {
    if part != "" {
      SplitSingle(part[1..], sep);
      assert part == [part[0]] + part[1..];
    }
  }

  lemma {:induction false} SplitFirst(part: string, sep: char, rest: string)
    requires sep !in part
    ensures Split(part + [sep] + rest, sep) == [part] + Split(rest, sep)
  {
    var whole := part + [sep] + rest;
    if part == "" {
      assert whole[1..] == rest;
    } else {
      assert whole[1..] == part[1..] + [sep] + rest;
      SplitFirst(part[1..], sep, rest);
      assert part == [part[0]] + part[1..];
    }
  }

  /** Splitting undoes joining, for parts that do not contain the separator. */
  lemma {:induction false} SplitJoin(parts: seq<string>, sep: char)
    requires |parts| > 0
    requires forall part <- parts :: sep !in part
    ensures Split(Join(parts, sep), sep) == parts
  {
    if |parts| == 1 {
      SplitSingle(parts[0], sep);
    } else {
      SplitJoin(parts[1..], sep);
      SplitFirst(parts[0], sep, Join(parts[1..], sep));
    }
  }

  // ------------------------------------------------------------- ordering

  /** `Ord for str`: code point order agrees with the byte order of UTF-8. */
  predicate Less(a: string, b: string) {
    b != "" && (a == "" || a[0] < b[0] || (a[0] == b[0] && Less(a[1..], b[1..])))
  }

  lemma {:induction false} LessIrreflexive(a: string)
    ensures !Less(a, a)
  {
    if a != "" {
      LessIrreflexive(a[1..]);
    }
  }

  lemma {:induction false} LessTransitive(a: string, b: string, c: string)
    requires Less(a, b) && Less(b, c)
    ensures Less(a, c)
  {
    if a != "" && a[0] == b[0] && b[0] == c[0] {
      LessTransitive(a[1..], b[1..], c[1..]);
    }
  }

  lemma {:induction false} LessTotal(a: string, b: string)
    ensures a == b || Less(a, b) || Less(b, a)
  {
    if a != "" && b != "" && a[0] == b[0] {
      LessTotal(a[1..], b[1..]);
      assert a == [a[0]] + a[1..] && b == [b[0]] + b[1..];
    }
  }

  lemma LessAsymmetric(a: string, b: string)
    requires Less(a, b)
    ensures !Less(b, a)
  {
    if Less(b, a) {
      LessTransitive(a, b, a);
      LessIrreflexive(a);
    }
  }

  /** Comparing a common-length prefix first decides the order. */
  lemma {:induction false} LessByPrefix(a: string, b: string, x: string, y: string)
    requires |a| == |b| && Less(a, b)
    ensures Less(a + x, b + y)
  {
    assert (a + x)[0] == a[0] && (b + y)[0] == b[0];
    if a[0] == b[0] {
      assert (a + x)[1..] == a[1..] + x && (b + y)[1..] == b[1..] + y;
      LessByPrefix(a[1..], b[1..], x, y);
    }
  }

  lemma {:induction false} LessAfterPrefix(p: string, x: string, y: string)
    requires Less(x, y)
    ensures Less(p + x, p + y)
  {
    if p == "" {
      assert p + x == x && p + y == y;
    } else {
      assert (p + x)[1..] == p[1..] + x && (p + y)[1..] == p[1..] + y;
      LessAfterPrefix(p[1..], x, y);
    }
  }

  // ------------------------------------------------- sorted listing of a set

  predicate IsLeast(s: set<string>, m: string) {
    m in s && forall x :: x in s && x != m ==> Less(m, x)
  }

  lemma {:induction false} LeastExists(s: set<string>)
    requires s != {}
    ensures exists m :: IsLeast(s, m)
    decreases |s|
  {
    var x :| x in s;
    if s == {x} {
      assert IsLeast(s, x);
    } else {
      LeastExists(s - {x});
      var m :| IsLeast(s - {x}, m);
      LessTotal(x, m);
      if Less(x, m) {
        forall y | y in s && y != x ensures Less(x, y) {
          if y != m { LessTransitive(x, m, y); }
        }
        assert IsLeast(s, x);
      } else {
        assert IsLeast(s, m);
      }
    }
  }

  lemma LeastUnique(s: set<string>)
    ensures forall a, b :: IsLeast(s, a) && IsLeast(s, b) ==> a == b
  {
    forall a, b | IsLeast(s, a) && IsLeast(s, b) ensures a == b {
      if a != b {
        LessAsymmetric(a, b);
      }
    }
  }

  ghost predicate StrictlySorted(items: seq<string>) {
    forall i, j :: 0 <= i < j < |items| ==> Less(items[i], items[j])
  }

  /** Iteration order of a `BTreeSet<String>`. */
  function Sorted(s: set<string>): (items: seq<string>)
    ensures forall x :: x in items <==> x in s
    ensures StrictlySorted(items)
    ensures |items| == |s|
    decreases |s|
  {
    if s == {} then []
    else
      LeastExists(s);
      LeastUnique(s);
      var m :| m in s && IsLeast(s, m);
      var rest := Sorted(s - {m});
      LeastFirst(s, m, rest);
      [m] + rest
  }

  lemma LeastFirst(s: set<string>, m: string, rest: seq<string>)
    requires IsLeast(s, m) && StrictlySorted(rest) && forall x :: x in rest <==> x in s - {m}
    ensures StrictlySorted([m] + rest) && forall x :: x in [m] + rest <==> x in s
  {
    hide Less;
    forall j | 0 <= j < |rest| ensures Less(m, rest[j]) {
      assert rest[j] in rest;
    }
  }

  // ------------------------------------------------------------- sizes, trim

  /** `str::len`: the number of UTF-8 bytes. */
  function Utf8Len(s: string): nat {
    if s == "" then 0
    else (var c := s[0] as int;
          if c < 0x80 then 1 else if c < 0x800 then 2 else if c < 0x1_0000 then 3 else 4)
         + Utf8Len(s[1..])
  }

  /** The Unicode White_Space characters, which `str::trim` removes at both ends. */
  predicate IsWhitespace(c: char) {
    var n := c as int;
    0x09 <= n <= 0x0D || n == 0x20 || n == 0x85 || n == 0xA0 || n == 0x1680 || 0x2000 <= n <= 0x200A
    || n == 0x2028 || n == 0x2029 || n == 0x202F || n == 0x205F || n == 0x3000
  }

  function TrimStart(s: string): string {
    if s != "" && IsWhitespace(s[0]) then TrimStart(s[1..]) else s
  }

  function TrimEnd(s: string): string {
    if s != "" && IsWhitespace(s[|s| - 1]) then TrimEnd(s[..|s| - 1]) else s
  }

  function Trim(s: string): string { TrimEnd(TrimStart(s)) }
}
