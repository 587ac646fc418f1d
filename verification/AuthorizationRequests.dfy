/** `AuthorizationRequest` and `Prompt` of `oauth/services/authorization.rs`, and `safe_return_to`. */
module AuthorizationRequests {
  import opened Wrappers
  import opened Text
  import Params

  datatype AuthorizationRequest = AuthorizationRequest(
    clientId: Option<string>,
    redirectUri: Option<string>,
    responseType: Option<string>,
    responseMode: Option<string>,
    scope: Option<string>,
    state: Option<string>,
    codeChallenge: Option<string>,
    codeChallengeMethod: Option<string>,
    nonce: Option<string>,
    prompt: Option<string>,
    maxAge: Option<string>,
    hasRequestObject: bool,
    hasRequestUri: bool)

  function FromParams(params: map<string, string>): AuthorizationRequest {
    AuthorizationRequest(
      Params.Get(params, "client_id"),
      Params.Get(params, "redirect_uri"),
      Params.Get(params, "response_type"),
      Params.Get(params, "response_mode"),
      Params.Get(params, "scope"),
      Params.Get(params, "state"),
      Params.Get(params, "code_challenge"),
      Params.Get(params, "code_challenge_method"),
      Params.Get(params, "nonce"),
      Params.Get(params, "prompt"),
      Params.Get(params, "max_age"),
      Params.Get(params, "request").Some?,
      Params.Get(params, "request_uri").Some?)
  }

  type Fields = seq<(string, Option<string>)>

  function FieldsOf(r: AuthorizationRequest): Fields {
    [("client_id", r.clientId),
     ("redirect_uri", r.redirectUri),
     ("response_type", r.responseType),
     ("response_mode", r.responseMode),
     ("scope", r.scope),
     ("state", r.state),
     ("code_challenge", r.codeChallenge),
     ("code_challenge_method", r.codeChallengeMethod),
     ("nonce", r.nonce),
     ("prompt", r.prompt),
     ("max_age", r.maxAge)]
  }

  /** `filter_map` keeping the fields that are present. */
  function Present(fields: Fields): Params.Pairs {
    if fields == [] then []
    else (if fields[0].1.Some? then [(fields[0].0, fields[0].1.value)] else []) + Present(fields[1..])
  }

  function ToPairs(r: AuthorizationRequest): Params.Pairs { Present(FieldsOf(r)) }

  // ------------------------------------------------------------- round trip

  ghost predicate DistinctNames(fields: Fields) {
    forall i, j :: 0 <= i < j < |fields| ==> fields[i].0 != fields[j].0
  }

  lemma {:induction false} PresentMeaning(fields: Fields)
    ensures forall name, value :: (name, value) in Present(fields) <==> (name, Some(value)) in fields
    ensures DistinctNames(fields) ==> Params.Distinct(Present(fields))
  {
    if fields != [] {
      var rest := fields[1..];
      assert fields == [fields[0]] + rest;
      PresentMeaning(rest);
      if DistinctNames(fields) {
        forall p | p in Present(rest) ensures p.0 != fields[0].0 {
          assert (p.0, Some(p.1)) in rest;
        }
        assert forall i :: 0 <= i < |rest| ==> rest[i] == fields[i + 1];
      }
    }
  }

  /** Further parameters, under names the request does not use. */
  ghost predicate ForeignNames(extra: Params.Pairs, fields: Fields) {
    && Params.Distinct(extra)
    && forall i, j :: 0 <= i < |extra| && 0 <= j < |fields| ==> extra[i].0 != fields[j].0
  }

  lemma ReadBack(fields: Fields, before: Params.Pairs, after: Params.Pairs, i: nat)
    requires DistinctNames(fields) && ForeignNames(before + after, fields) && i < |fields|
    ensures Params.Collected(before + Present(fields) + after).Ok?
    ensures Params.Get(Params.Collected(before + Present(fields) + after).value, fields[i].0)
            == if fields[i].1 == Some("") then None else fields[i].1
  {
    var pairs, extra := before + Present(fields) + after, before + after;
    assert forall p :: p in pairs <==> p in extra || p in Present(fields);
    assert forall k :: 0 <= k < |before| ==> before[k] == extra[k];
    assert forall k :: 0 <= k < |after| ==> after[k] == extra[|before| + k];
    PresentMeaning(fields);
    forall k | 0 <= k < |Present(fields)| ensures (Present(fields)[k].0, Some(Present(fields)[k].1)) in fields {
      assert Present(fields)[k] == (Present(fields)[k].0, Present(fields)[k].1);
      assert Present(fields)[k] in Present(fields);
    }
    assert Params.Distinct(pairs);
    Params.CollectedMeaning(pairs);
    var m := Params.Collected(pairs).value;
    var name := fields[i].0;
    if fields[i].1.Some? {
      assert fields[i] == (name, Some(fields[i].1.value));
      assert (name, fields[i].1.value) in pairs;
    }
    if name in m {
      assert (name, m[name]) in pairs;
      assert (name, m[name]) in Present(fields);
      var j :| 0 <= j < |fields| && fields[j] == (name, Some(m[name]));
      assert i == j;
    }
  }

  function NonEmpty(field: Option<string>): Option<string> {
    if field == Some("") then None else field
  }

  /** What comes back: empty fields and request objects are lost, everything else is kept. */
  function Normalised(r: AuthorizationRequest): AuthorizationRequest {
    AuthorizationRequest(
      NonEmpty(r.clientId), NonEmpty(r.redirectUri), NonEmpty(r.responseType), NonEmpty(r.responseMode),
      NonEmpty(r.scope), NonEmpty(r.state), NonEmpty(r.codeChallenge), NonEmpty(r.codeChallengeMethod),
      NonEmpty(r.nonce), NonEmpty(r.prompt), NonEmpty(r.maxAge), false, false)
  }

  function AllFields(r: AuthorizationRequest): Fields {
    FieldsOf(r) + [("request", None), ("request_uri", None)]
  }

  /**
   * Re-serialising a request (as a URL after sign-in, or as hidden fields on the consent page,
   * among the form's own fields) and parsing it again gives back its normal form.
   */
  lemma Reparsed(r: AuthorizationRequest, before: Params.Pairs, after: Params.Pairs)
    requires ForeignNames(before + after, AllFields(r))
    ensures Params.Collected(before + ToPairs(r) + after).Ok?
    ensures FromParams(Params.Collected(before + ToPairs(r) + after).value) == Normalised(r)
  {
    var f := AllFields(r);
    NamesAreDistinct(r);
    PresentAppendAbsent(FieldsOf(r));
    forall i | 0 <= i < |f|
      ensures Params.Collected(before + ToPairs(r) + after).Ok?
      ensures Params.Get(Params.Collected(before + ToPairs(r) + after).value, f[i].0) == NonEmpty(f[i].1)
    {
      ReadBack(f, before, after, i);
    }
    hide ToPairs, Params.Collected, Params.Get;
    assert f[0].0 == "client_id" && f[1].0 == "redirect_uri" && f[2].0 == "response_type" && f[3].0 == "response_mode";
    assert f[4].0 == "scope" && f[5].0 == "state" && f[6].0 == "code_challenge" && f[7].0 == "code_challenge_method";
    assert f[8].0 == "nonce" && f[9].0 == "prompt" && f[10].0 == "max_age" && f[11].0 == "request"
           && f[12].0 == "request_uri";
  }

  lemma NamesAreDistinct(r: AuthorizationRequest)
    ensures DistinctNames(AllFields(r))
  {
    var none: Option<string> := None;
    assert AllFields(r) == [
      ("client_id", r.clientId), ("redirect_uri", r.redirectUri), ("response_type", r.responseType),
      ("response_mode", r.responseMode), ("scope", r.scope), ("state", r.state),
      ("code_challenge", r.codeChallenge), ("code_challenge_method", r.codeChallengeMethod),
      ("nonce", r.nonce), ("prompt", r.prompt), ("max_age", r.maxAge), ("request", none), ("request_uri", none)];
  }

  /** No field is present but empty, and no request object was recorded. */
  predicate Reproducible(r: AuthorizationRequest) {
    && !r.hasRequestObject && !r.hasRequestUri
    && r.clientId != Some("") && r.redirectUri != Some("") && r.responseType != Some("") && r.responseMode != Some("")
    && r.scope != Some("") && r.state != Some("") && r.codeChallenge != Some("") && r.codeChallengeMethod != Some("")
    && r.nonce != Some("") && r.prompt != Some("") && r.maxAge != Some("")
  }

  /** The round trip is the identity exactly on requests without empty fields or request objects. */
  lemma RequestRoundTrip(r: AuthorizationRequest, before: Params.Pairs, after: Params.Pairs)
    requires ForeignNames(before + after, AllFields(r))
    ensures Params.Collected(before + ToPairs(r) + after).Ok?
    ensures FromParams(Params.Collected(before + ToPairs(r) + after).value) == r <==> Reproducible(r)
  {
    Reparsed(r, before, after);
  }

  lemma {:induction false} PresentAppendAbsent(fields: Fields)
    ensures Present(fields + [("request", None), ("request_uri", None)]) == Present(fields)
  {
    var none: Option<string> := None;
    var absent := [("request", none), ("request_uri", none)];
    if fields == [] {
      assert fields + absent == absent;
      assert absent[1..][1..] == [];
      assert Present(absent) == Present(absent[1..]);
    } else {
      assert (fields + absent)[1..] == fields[1..] + absent;
      PresentAppendAbsent(fields[1..]);
    }
  }

  // ------------------------------------------------------------- prompt

  datatype Prompt = Prompt(none: bool, login: bool, consent: bool)

  ghost function PromptValues(raw: Option<string>): set<string> {
    var parts := Split(if raw.Some? then raw.value else "", ' ');
    set v | v in parts && v != ""
  }

  /** What `Prompt::parse` returns. `none` goes with nothing but itself and `select_account`. */
  ghost function ParsedPrompt(raw: Option<string>): Option<Prompt> {
    var values := PromptValues(raw);
    var p := Prompt("none" in values, "login" in values, "consent" in values);
    if !(values <= {"none", "login", "consent", "select_account"}) then None
    else if p.none && (p.login || p.consent) then None
    else Some(p)
  }

  /** `Prompt::parse`. */
  method ParsePrompt(raw: Option<string>) returns (r: Option<Prompt>)
    ensures r == ParsedPrompt(raw)
  {
    var parts := Split(if raw.Some? then raw.value else "", ' ');
    var p := Prompt(false, false, false);
    for i := 0 to |parts|
      invariant forall v :: v in parts[..i] && v != "" ==> v in {"none", "login", "consent", "select_account"}
      invariant p == Prompt("none" in parts[..i], "login" in parts[..i], "consent" in parts[..i])
    {
      assert parts[..i + 1] == parts[..i] + [parts[i]];
      var value := parts[i];
      if value == "none" {
        p := p.(none := true);
      } else if value == "login" {
        p := p.(login := true);
      } else if value == "consent" {
        p := p.(consent := true);
      } else if value != "" && value != "select_account" {
        assert value in PromptValues(raw);
        return None;
      }
    }
    assert parts[..|parts|] == parts;
    if p.none && (p.login || p.consent) {
      return None;
    }
    return Some(p);
  }

  // ------------------------------------------------------------- after sign-in

  function DropLogin(parts: seq<string>): (kept: seq<string>)
    ensures forall v :: v in kept <==> v in parts && v != "login"
  {
    if parts == [] then []
    else (if parts[0] != "login" then [parts[0]] else []) + DropLogin(parts[1..])
  }

  function WithoutLogin(prompt: Option<string>): Option<string> {
    if prompt.None? then None
    else
      var kept := Join(DropLogin(Split(prompt.value, ' ')), ' ');
      if kept == "" then None else Some(kept)
  }

  /** The request to come back to after signing in: `prompt=login` and `max_age` removed. */
  function WithoutReauthentication(r: AuthorizationRequest): AuthorizationRequest {
    r.(prompt := WithoutLogin(r.prompt), maxAge := None)
  }

  lemma WithoutLoginValues(prompt: Option<string>)
    ensures PromptValues(WithoutLogin(prompt)) == PromptValues(prompt) - {"login"}
  {
    if prompt.Some? {
      var parts := Split(prompt.value, ' ');
      var kept := DropLogin(parts);
      if kept != [] {
        SplitJoin(kept, ' ');
      }
      if Join(kept, ' ') == "" {
        JoinEmpty(kept);
      }
    }
    SplitEmpty();
  }

  lemma SplitEmpty()
    ensures Split("", ' ') == [""]
  {
  }

  lemma JoinEmpty(parts: seq<string>)
    requires Join(parts, ' ') == ""
    ensures parts == [] || parts == [""]
  {
  }

  /** Removing `login` removes exactly that demand and keeps every other one. */
  lemma PromptWithoutLogin(prompt: Option<string>)
    requires ParsedPrompt(prompt).Some?
    ensures ParsedPrompt(WithoutLogin(prompt)) == Some(ParsedPrompt(prompt).value.(login := false))
  {
    WithoutLoginValues(prompt);
  }

  lemma {:induction false} NothingToDrop(parts: seq<string>)
    requires "login" !in parts
    ensures DropLogin(parts) == parts
  {
    if parts != [] {
      NothingToDrop(parts[1..]);
    }
  }

  /** Removing the demands twice is removing them once, spacing included. */
  lemma WithoutReauthenticationTwice(r: AuthorizationRequest)
    ensures WithoutReauthentication(WithoutReauthentication(r)) == WithoutReauthentication(r)
  {
    if r.prompt.Some? {
      var kept := DropLogin(Split(r.prompt.value, ' '));
      if Join(kept, ' ') != "" {
        SplitJoin(kept, ' ');
        NothingToDrop(kept);
      }
    }
  }

  // ------------------------------------------------------------- max_age

  function DigitsValue(s: string): nat
    requires forall i :: 0 <= i < |s| ==> '0' <= s[i] <= '9'
  {
    if s == "" then 0 else DigitsValue(s[..|s| - 1]) * 10 + (s[|s| - 1] as int - '0' as int)
  }

  /** `str::parse::<u32>`: an optional plus sign, then decimal digits below 2^32. */
  function ParseU32(s: string): (r: Option<int>)
    ensures r.Some? ==> 0 <= r.value < 0x1_0000_0000
  {
    var digits := if s != "" && s[0] == '+' then s[1..] else s;
    if digits == "" || !forall i :: 0 <= i < |digits| ==> '0' <= digits[i] <= '9' then None
    else if DigitsValue(digits) >= 0x1_0000_0000 then None
    else Some(DigitsValue(digits))
  }

  /** A number in decimal digits. */
  function Decimal(n: nat): string {
    if n < 10 then [('0' as int + n) as char] else Decimal(n / 10) + [('0' as int + n % 10) as char]
  }

  lemma {:induction false} DecimalValue(n: nat)
    ensures Decimal(n) != "" && forall i :: 0 <= i < |Decimal(n)| ==> '0' <= Decimal(n)[i] <= '9'
    ensures DigitsValue(Decimal(n)) == n
  {
    if n < 10 {
      assert Decimal(n)[..0] == "";
    } else {
      DecimalValue(n / 10);
      assert Decimal(n)[..|Decimal(n)| - 1] == Decimal(n / 10);
    }
  }

  /** Exactly the numbers below 2^32 are read from their decimals, with or without a plus sign. */
  lemma DecimalsAreRead(n: nat)
    ensures ParseU32(Decimal(n)) == ParseU32("+" + Decimal(n)) == if n < 0x1_0000_0000 then Some(n) else None
  {
    DecimalValue(n);
    assert ("+" + Decimal(n))[1..] == Decimal(n);
  }

  // ------------------------------------------------------------- return_to

  /** `to_path`, over the form-urlencoded serializer. */
  function ToPath(serialize: Params.Pairs -> string, r: AuthorizationRequest): string {
    "/oauth/authorize?" + serialize(ToPairs(r))
  }

  predicate IsControl(c: char) { c as int < 0x20 || 0x7F <= c as int < 0xA0 }

  predicate IsLocalPath(s: string) {
    && s != "" && s[0] == '/'
    && !(|s| > 1 && s[1] == '/')
    && (forall c <- s :: c != '\\' && !IsControl(c))
  }

  /** Only paths on this server; anything else becomes the home page. */
  function SafeReturnTo(candidate: string): string {
    if IsLocalPath(candidate) then candidate else "/"
  }

  /** The characters the form-urlencoded serializer emits (WHATWG URL standard, section 5.2). */
  predicate IsFormUrlencodedChar(c: char) {
    '0' <= c <= '9' || 'A' <= c <= 'Z' || 'a' <= c <= 'z' || c in {'*', '-', '.', '_', '+', '%', '&', '='}
  }

  /** The path of any request survives the open-redirect filter, whatever its parameters hold. */
  lemma ReturnPathSurvives(serialize: Params.Pairs -> string, r: AuthorizationRequest)
    requires forall c <- serialize(ToPairs(r)) :: IsFormUrlencodedChar(c)
    ensures SafeReturnTo(ToPath(serialize, r)) == ToPath(serialize, r)
  {
    var prefix := "/oauth/authorize?";
    var path := ToPath(serialize, r);
    assert path[0] == prefix[0] && path[1] == prefix[1];
    forall c | c in path ensures c != '\\' && !IsControl(c) {
      assert c in prefix || c in serialize(ToPairs(r));
    }
  }

  /**
   * The filter lets through exactly the paths of one leading slash without backslashes and
   * control characters, sends everything else home, and filtering again changes nothing.
   */
  lemma FilterIsIdempotent(candidate: string)
    ensures SafeReturnTo(candidate) == candidate <==>
            && candidate != "" && candidate[0] == '/' && (|candidate| > 1 ==> candidate[1] != '/')
            && forall c <- candidate :: ' ' <= c && c != '\\' && !(0x7F <= c as int <= 0x9F)
    ensures SafeReturnTo(candidate) != candidate ==> SafeReturnTo(candidate) == "/"
    ensures SafeReturnTo(SafeReturnTo(candidate)) == SafeReturnTo(candidate)
  {
    assert IsLocalPath("/");
  }
}
