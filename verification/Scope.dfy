/** Scope strings: section 3.3 of RFC 6749. */
module Scope {
  import opened Wrappers
  import opened Text

  const OPENID := "openid"
  const PROFILE := "profile"
  const EMAIL := "email"
  const OFFLINE_ACCESS := "offline_access"

  datatype ScopeError = Empty | InvalidCharacters

  predicate IsScopeChar(c: char) {
    var n := c as int;
    n == 0x21 || 0x23 <= n <= 0x5B || 0x5D <= n <= 0x7E
  }

  predicate IsScopeName(name: string) {
    name != "" && forall c <- name :: IsScopeChar(c)
  }

  /** A set that `parse` can return. */
  ghost predicate IsScopeSet(s: set<string>) {
    s != {} && forall name :: name in s ==> IsScopeName(name)
  }

  /** The non-empty parts of a space-delimited string. */
  ghost function Names(raw: string): set<string> {
    set name | name in Split(raw, ' ') && name != ""
  }

  /** What `ScopeSet::parse` promises: all or nothing, never dropping a bad name. */
  ghost function Parsed(raw: string): Result<set<string>, ScopeError> {
    if exists name :: name in Names(raw) && !IsScopeName(name) then Err(InvalidCharacters)
    else if Names(raw) == {} then Err(Empty)
    else Ok(Names(raw))
  }

  /** `ScopeSet::parse`. */
  method Parse(raw: string) returns (r: Result<set<string>, ScopeError>)
    ensures r == Parsed(raw)
  {
    var parts := Split(raw, ' ');
    var scopes: set<string> := {};
    for i := 0 to |parts|
      invariant scopes == set name | name in parts[..i] && name != ""
      invariant forall name :: name in scopes ==> IsScopeName(name)
    {
      assert parts[..i + 1] == parts[..i] + [parts[i]];
      if parts[i] != "" {
        if !IsScopeName(parts[i]) {
          assert parts[i] in Names(raw);
          return Err(InvalidCharacters);
        }
        scopes := scopes + {parts[i]};
      }
    }
    assert parts[..|parts|] == parts;
    return if scopes == {} then Err(Empty) else Ok(scopes);
  }

  lemma {:induction false} SplitChars(s: string, sep: char, c: char)
    requires c != sep
    ensures c in s <==> exists part :: part in Split(s, sep) && c in part
  {
    if s != "" {
      var rest := Split(s[1..], sep);
      assert rest == [rest[0]] + rest[1..];
      SplitChars(s[1..], sep, c);
      assert s == [s[0]] + s[1..];
      if s[0] == sep {
        assert Split(s, sep) == [""] + rest;
      } else {
        assert Split(s, sep) == [[s[0]] + rest[0]] + rest[1..];
        assert [s[0]] + rest[0] in Split(s, sep);
      }
    }
  }

  /**
   * A scope string is well formed exactly if it holds only spaces and printable ASCII other than
   * quote and backslash, and not only spaces; the latter is the error for an empty scope.
   */
  lemma ParsesExactly(raw: string)
    ensures Parsed(raw).Ok? <==>
            && (forall c <- raw :: ' ' <= c <= '~' && c != '"' && c != '\\')
            && exists c <- raw :: c != ' '
    ensures Parsed(raw) == Err(Empty) <==> forall c <- raw :: c == ' '
  {
    hide Split;
    forall c | c in raw && c != ' ' ensures exists name :: name in Names(raw) && c in name {
      SplitChars(raw, ' ', c);
      var part :| part in Split(raw, ' ') && c in part;
      assert part in Names(raw);
    }
    forall name, c | name in Names(raw) && c in name ensures c in raw && c != ' ' {
      SplitChars(raw, ' ', c);
    }
    forall name | name in Names(raw) ensures exists c :: c in name {
      assert name[0] in name;
    }
  }

  /** `Display for ScopeSet`. */
  function Print(s: set<string>): string { Join(Sorted(s), ' ') }

  /**
   * Printing then parsing gives a set back exactly when it is one that parsing can produce:
   * non-empty, and every name non-empty and made of allowed characters.
   */
  lemma PrintThenParse(s: set<string>)
    ensures Parsed(Print(s)) == Ok(s) <==> IsScopeSet(s)
  {
    if IsScopeSet(s) {
      SharedMember(s);
      SplitJoin(Sorted(s), ' ');
      assert Names(Print(s)) == s;
    }
  }

  lemma SharedMember(s: set<string>)
    requires s != {}
    ensures |Sorted(s)| > 0
  {
    var x :| x in s;
    assert x in Sorted(s);
  }

  /**
   * Printing is canonical: two strings denote the same set exactly when they print alike, and
   * the printed form lists each name once, in increasing order.
   */
  lemma PrintIsCanonical(a: string, b: string)
    requires Parsed(a).Ok? && Parsed(b).Ok?
    ensures Print(Parsed(a).value) == Print(Parsed(b).value) <==> Names(a) == Names(b)
    ensures Parsed(Print(Parsed(a).value)) == Parsed(a)
    ensures StrictlySorted(Split(Print(Parsed(a).value), ' '))
    ensures multiset(Split(Print(Parsed(a).value), ' ')) == multiset(Names(a))
  {
    PrintThenParse(Parsed(a).value);
    PrintThenParse(Parsed(b).value);
    var s := Parsed(a).value;
    SharedMember(s);
    SplitJoin(Sorted(s), ' ');
    SortedMultiset(s);
  }

  lemma {:induction false} SortedMultiset(s: set<string>)
    ensures multiset(Sorted(s)) == multiset(s)
    decreases |s|
  {
    if s != {} {
      SharedMember(s);
      var m := Sorted(s)[0];
      assert Sorted(s) == [m] + Sorted(s - {m});
      SortedMultiset(s - {m});
    }
  }

  /** A stored scope column: the canonical text of a set `parse` can return. */
  ghost predicate IsStored(text: string) {
    Parsed(text).Ok? && Print(Parsed(text).value) == text
  }

  lemma PrintedIsStored(s: set<string>)
    requires IsScopeSet(s)
    ensures IsStored(Print(s)) && Parsed(Print(s)) == Ok(s)
  {
    PrintThenParse(s);
  }
}
