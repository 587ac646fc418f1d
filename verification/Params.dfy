/** Request parameters, each at most once (section 3.1 of RFC 6749). */
module Params {
  import opened Wrappers

  type Pairs = seq<(string, string)>

  /** No name occurs twice. */
  ghost predicate Distinct(pairs: Pairs) {
    forall i, j :: 0 <= i < j < |pairs| ==> pairs[i].0 != pairs[j].0
  }

  /** The value of `Params::from_pairs`; an error names the first repeated parameter. */
  function Collected(pairs: Pairs): Result<map<string, string>, string> {
    if pairs == [] then Ok(map[])
    else
      var last := pairs[|pairs| - 1];
      match Collected(pairs[..|pairs| - 1])
      case Err(name) => Err(name)
      case Ok(m) => if last.0 in m then Err(last.0) else Ok(m[last.0 := last.1])
  }

  /** `Params::from_pairs`: stops at the first repetition. */
  method FromPairs(pairs: Pairs) returns (r: Result<map<string, string>, string>)
    ensures r == Collected(pairs)
  {
    var m: map<string, string> := map[];
    for i := 0 to |pairs|
      invariant Collected(pairs[..i]) == Ok(m)
    {
      assert pairs[..i + 1][..i] == pairs[..i];
      if pairs[i].0 in m {
        ErrorSticks(pairs, i + 1);
        return Err(pairs[i].0);
      }
      m := m[pairs[i].0 := pairs[i].1];
    }
    assert pairs[..|pairs|] == pairs;
    return Ok(m);
  }

  lemma {:induction false} ErrorSticks(pairs: Pairs, n: nat)
    requires n <= |pairs| && Collected(pairs[..n]).Err?
    ensures Collected(pairs) == Collected(pairs[..n])
  {
    if n < |pairs| {
      assert pairs[..|pairs| - 1][..n] == pairs[..n];
      ErrorSticks(pairs[..|pairs| - 1], n);
    } else {
      assert pairs[..n] == pairs;
    }
  }

  /** Collection succeeds exactly on distinct names, and then holds exactly the given pairs. */
  lemma {:induction false} CollectedMeaning(pairs: Pairs)
    ensures Collected(pairs).Ok? <==> Distinct(pairs)
    ensures Collected(pairs).Ok? ==>
              forall name, value :: name in Collected(pairs).value && Collected(pairs).value[name] == value
                                    <==> (name, value) in pairs
  {
    if pairs != [] {
      var n := |pairs| - 1;
      var front, last := pairs[..n], pairs[n];
      assert pairs == front + [last];
      CollectedMeaning(front);
      if Collected(front).Ok? {
        var m := Collected(front).value;
        forall i | 0 <= i < n ensures pairs[i].0 in m {
          assert (pairs[i].0, pairs[i].1) in front;
        }
        if last.0 in m {
          assert (last.0, m[last.0]) in front;
          var i :| 0 <= i < n && front[i] == (last.0, m[last.0]);
          assert pairs[i].0 == pairs[n].0;
        }
      } else {
        var i, j :| 0 <= i < j < n && front[i].0 == front[j].0;
        assert pairs[i].0 == pairs[j].0;
      }
    }
  }

  /** The first j at which a name repeats. */
  ghost predicate RepeatsFirst(pairs: Pairs, j: int) {
    0 <= j < |pairs| && Distinct(pairs[..j]) && exists i :: 0 <= i < j && pairs[i].0 == pairs[j].0
  }

  /** Otherwise the error names the first repeated parameter. */
  lemma {:induction false} ErrorMeaning(pairs: Pairs)
    requires Collected(pairs).Err?
    ensures exists j :: RepeatsFirst(pairs, j) && pairs[j].0 == Collected(pairs).error
  {
    var n := |pairs| - 1;
    var front, last := pairs[..n], pairs[n];
    if Collected(front).Err? {
      ErrorMeaning(front);
      var j :| RepeatsFirst(front, j) && front[j].0 == Collected(front).error;
      assert pairs[..j] == front[..j] && pairs[j] == front[j];
      var i :| 0 <= i < j && front[i].0 == front[j].0;
      assert pairs[i].0 == pairs[j].0;
      assert RepeatsFirst(pairs, j);
    } else {
      CollectedMeaning(front);
      var m := Collected(front).value;
      assert (last.0, m[last.0]) in front;
      var i :| 0 <= i < n && front[i] == (last.0, m[last.0]);
      assert pairs[i].0 == pairs[n].0;
      assert RepeatsFirst(pairs, n);
    }
  }

  /** `Params::get`: an empty value counts as omitted. */
  function Get(params: map<string, string>, name: string): Option<string> {
    if name in params && params[name] != "" then Some(params[name]) else None
  }

  /** The value submitted under a name; an empty one counts as none. */
  ghost function Sent(pairs: Pairs, name: string): Option<string> {
    if exists value :: value != "" && (name, value) in pairs then
      var value :| value != "" && (name, value) in pairs;
      Some(value)
    else None
  }

  /** Looking a parameter up gives what was submitted. */
  lemma GetIsSent(pairs: Pairs, name: string)
    requires Collected(pairs).Ok?
    ensures Get(Collected(pairs).value, name) == Sent(pairs, name)
  {
    hide Collected;
    CollectedMeaning(pairs);
    var m, sent := Collected(pairs).value, Sent(pairs, name);
    if name in m && m[name] != "" {
      assert (name, m[name]) in pairs;
    }
    if sent.Some? {
      assert (name, sent.value) in pairs;
      assert name in m && m[name] == sent.value;
    }
  }

  lemma SentMeans(pairs: Pairs, name: string, value: string)
    requires Distinct(pairs)
    ensures Sent(pairs, name) == Some(value) <==> value != "" && (name, value) in pairs
  {
  }
}
