/** `developer/dtos.rs`: the application form of the developer portal. */
module AppForms {
  import opened Wrappers
  import opened Text
  import opened Schema
  import opened Clients
  import Params

  datatype AppForm = AppForm(
    csrfToken: Option<string>,
    name: string,
    redirectUris: string,
    scopes: seq<string>,
    clientType: string,
    confirm: bool)
  {
    function ScopeSet(): set<string> { set s | s in scopes }
    function Details(): ClientDetails { ClientDetails(name, RedirectUriList(redirectUris), ScopeSet()) }
  }

  // ------------------------------------------------------------- reading a submission

  /** The values submitted under a name, in order. */
  function Values(pairs: Params.Pairs, name: string): seq<string> {
    if pairs == [] then []
    else Values(pairs[..|pairs| - 1], name) + if pairs[|pairs| - 1].0 == name then [pairs[|pairs| - 1].1] else []
  }

  function Last(values: seq<string>): string {
    if values == [] then "" else values[|values| - 1]
  }

  /** Of a repeated field the last value counts; of the CSRF token the first; every scope counts once. */
  function Submitted(pairs: Params.Pairs): AppForm {
    var tokens := Values(pairs, "csrf_token");
    AppForm(
      if tokens == [] then None else Some(tokens[0]),
      Last(Values(pairs, "name")),
      Last(Values(pairs, "redirect_uris")),
      FirstOccurrences(Values(pairs, "scope")),
      Last(Values(pairs, "client_type")),
      Last(Values(pairs, "confirm")) == "yes")
  }

  lemma OneMoreValue(pairs: Params.Pairs, i: nat, name: string)
    requires i < |pairs|
    ensures var values, more := Values(pairs[..i], name), Values(pairs[..i + 1], name);
            && more == (if pairs[i].0 == name then values + [pairs[i].1] else values)
            && Last(more) == (if pairs[i].0 == name then pairs[i].1 else Last(values))
  {
    assert pairs[..i + 1][..i] == pairs[..i];
  }

  lemma OneMoreOccurrence(uris: seq<string>, uri: string)
    ensures FirstOccurrences(uris + [uri])
            == if uri in FirstOccurrences(uris) then FirstOccurrences(uris) else FirstOccurrences(uris) + [uri]
  {
    assert (uris + [uri])[..|uris|] == uris;
  }

  /** The form after one more field. */
  ghost predicate OneMoreField(form: AppForm, name: string, value: string, next: AppForm) {
    && next.csrfToken == (if name == "csrf_token" && form.csrfToken.None? then Some(value) else form.csrfToken)
    && next.name == (if name == "name" then value else form.name)
    && next.redirectUris == (if name == "redirect_uris" then value else form.redirectUris)
    && next.scopes == (if name == "scope" && value !in form.scopes then form.scopes + [value] else form.scopes)
    && next.clientType == (if name == "client_type" then value else form.clientType)
    && next.confirm == (if name == "confirm" then value == "yes" else form.confirm)
  }

  lemma SubmittedOneMore(pairs: Params.Pairs, i: nat)
    requires i < |pairs|
    ensures OneMoreField(Submitted(pairs[..i]), pairs[i].0, pairs[i].1, Submitted(pairs[..i + 1]))
  {
    OneMoreValue(pairs, i, "csrf_token");
    OneMoreValue(pairs, i, "name");
    OneMoreValue(pairs, i, "redirect_uris");
    OneMoreValue(pairs, i, "scope");
    OneMoreValue(pairs, i, "client_type");
    OneMoreValue(pairs, i, "confirm");
    OneMoreOccurrence(Values(pairs[..i], "scope"), pairs[i].1);
    hide Values, Last, FirstOccurrences;
  }

  /** One field of the submission. */
  method Read(form: AppForm, name: string, value: string) returns (next: AppForm)
    ensures OneMoreField(form, name, value, next)
  {
    FieldNamesDiffer(name);
    next := form;
    if name == "csrf_token" && form.csrfToken.None? {
      next := form.(csrfToken := Some(value));
    } else if name == "name" {
      next := form.(name := value);
    } else if name == "redirect_uris" {
      next := form.(redirectUris := value);
    } else if name == "scope" && value !in form.scopes {
      next := form.(scopes := form.scopes + [value]);
    } else if name == "client_type" {
      next := form.(clientType := value);
    } else if name == "confirm" {
      next := form.(confirm := value == "yes");
    }
  }

  /** The field names have different lengths. */
  lemma FieldNamesDiffer(name: string)
    ensures name == "csrf_token" ==> |name| == 10
    ensures name == "name" ==> |name| == 4
    ensures name == "redirect_uris" ==> |name| == 13
    ensures name == "scope" ==> |name| == 5
    ensures name == "client_type" ==> |name| == 11
    ensures name == "confirm" ==> |name| == 7
  {
  }

  /** `AppForm::from_pairs`. */
  method FromPairs(pairs: Params.Pairs) returns (form: AppForm)
    ensures form == Submitted(pairs)
  {
    form := AppForm(None, "", "", [], "", false);
    for i := 0 to |pairs|
      invariant form == Submitted(pairs[..i])
    {
      var (name, value) := pairs[i];
      SubmittedOneMore(pairs, i);
      hide Submitted;
      form := Read(form, name, value);
    }
    assert pairs[..|pairs|] == pairs;
  }

  // ------------------------------------------------------------- redirect URIs, one per line

  function StripReturn(line: string): string {
    if line != "" && line[|line| - 1] == '\r' then line[..|line| - 1] else line
  }

  function StripReturns(lines: seq<string>): seq<string> {
    if lines == [] then [] else [StripReturn(lines[0])] + StripReturns(lines[1..])
  }

  /** `str::lines`: a line ends in LF or CRLF; the last one may end without. */
  function Lines(s: string): seq<string> {
    var parts := Split(s, '\n');
    var ended, rest := StripReturns(parts[..|parts| - 1]), parts[|parts| - 1];
    if rest == "" then ended else ended + [rest]
  }

  function TrimmedNonEmpty(lines: seq<string>): seq<string> {
    if lines == [] then []
    else (if Trim(lines[0]) != "" then [Trim(lines[0])] else []) + TrimmedNonEmpty(lines[1..])
  }

  /** `redirect_uri_list`. */
  function RedirectUriList(text: string): seq<string> { TrimmedNonEmpty(Lines(text)) }

  /** What fits on one line of the form and survives trimming. */
  predicate IsLine(uri: string) { uri != "" && Trim(uri) == uri && '\n' !in uri }

  // ------------------------------------------------------------- trimming

  lemma {:induction false} TrimStartMeaning(s: string)
    ensures TrimStart(s) == "" || !IsWhitespace(TrimStart(s)[0])
    ensures forall c <- TrimStart(s) :: c in s
  {
    if s != "" && IsWhitespace(s[0]) {
      TrimStartMeaning(s[1..]);
    }
  }

  lemma {:induction false} TrimEndMeaning(s: string)
    ensures TrimEnd(s) == "" || !IsWhitespace(TrimEnd(s)[|TrimEnd(s)| - 1])
    ensures TrimEnd(s) <= s
  {
    if s != "" && IsWhitespace(s[|s| - 1]) {
      TrimEndMeaning(s[..|s| - 1]);
    }
  }

  /** Trimming is idempotent and adds no character. */
  lemma TrimTwice(s: string)
    ensures Trim(Trim(s)) == Trim(s)
    ensures forall c <- Trim(s) :: c in s
  {
    TrimStartMeaning(s);
    TrimEndMeaning(TrimStart(s));
    var t := Trim(s);
    if t != "" {
      assert t[0] == TrimStart(s)[0];
      assert TrimStart(t) == t;
    }
  }

  // ------------------------------------------------------------- the round trip

  lemma {:induction false} StripReturnsKeepsLines(lines: seq<string>)
    requires forall line <- lines :: '\n' !in line
    ensures forall line <- StripReturns(lines) :: '\n' !in line
    ensures (forall line <- lines :: IsLine(line)) ==> StripReturns(lines) == lines
  {
    if lines != [] {
      assert lines[0] in lines && lines == [lines[0]] + lines[1..];
      StripReturnsKeepsLines(lines[1..]);
      TrimEndMeaning(TrimStart(lines[0]));
      assert IsWhitespace('\r');
    }
  }

  lemma {:induction false} TrimmedAreLines(lines: seq<string>)
    requires forall line <- lines :: '\n' !in line
    ensures forall line <- TrimmedNonEmpty(lines) :: IsLine(line)
    ensures (forall line <- lines :: IsLine(line)) ==> TrimmedNonEmpty(lines) == lines
  {
    if lines != [] {
      assert lines[0] in lines && lines == [lines[0]] + lines[1..];
      TrimmedAreLines(lines[1..]);
      TrimTwice(lines[0]);
    }
  }

  /** Whatever is typed, each listed redirect URI fits on a line. */
  lemma ListedUrisAreLines(text: string)
    ensures forall uri <- RedirectUriList(text) :: IsLine(uri)
  {
    hide TrimmedNonEmpty, IsLine, StripReturns;
    var parts := Split(text, '\n');
    forall line | line in parts[..|parts| - 1] ensures '\n' !in line {
      assert line in parts;
    }
    assert parts[|parts| - 1] in parts;
    StripReturnsKeepsLines(parts[..|parts| - 1]);
    TrimmedAreLines(Lines(text));
  }

  lemma LinesComeBack(uris: seq<string>)
    requires uris != [] && forall uri <- uris :: IsLine(uri)
    ensures Lines(Join(uris, '\n')) == uris
  {
    var n := |uris| - 1;
    SplitJoin(uris, '\n');
    assert IsLine(uris[n]) && uris == uris[..n] + [uris[n]];
    StripReturnsKeepsLines(uris[..n]);
  }

  /** The textarea gives back the URIs it was filled with exactly when each fits on a line. */
  lemma TextareaRoundTrip(uris: seq<string>)
    ensures RedirectUriList(Join(uris, '\n')) == uris <==> forall uri <- uris :: IsLine(uri)
  {
    ListedUrisAreLines(Join(uris, '\n'));
    hide Trim;
    if uris == [] {
      assert Split("", '\n') == [""];
    } else if forall uri <- uris :: IsLine(uri) {
      LinesComeBack(uris);
      TrimmedAreLines(uris);
      hide Lines, Join, TrimmedNonEmpty;
    }
  }

  // ------------------------------------------------------------- line breaks as a browser sends them

  /** Form submission turns every line break of a textarea into CRLF (HTML standard, section 4.10.21.4). */
  function WithCrlf(text: string): string {
    if text == "" then ""
    else if text[0] == '\r' && |text| > 1 && text[1] == '\n' then "\r\n" + WithCrlf(text[2..])
    else if text[0] == '\r' || text[0] == '\n' then "\r\n" + WithCrlf(text[1..])
    else [text[0]] + WithCrlf(text[1..])
  }

  /** Parts that end in one carriage return, except for the last, and hold no other. */
  ghost predicate CrlfParts(parts: seq<string>) {
    && |parts| > 0 && '\r' !in parts[|parts| - 1]
    && forall i ::
         0 <= i < |parts| - 1 ==>
           parts[i] != "" && parts[i][|parts[i]| - 1] == '\r' && '\r' !in parts[i][..|parts[i]| - 1]
  }

  lemma {:induction false} BreakFirst(rest: string)
    requires CrlfParts(Split(rest, '\n'))
    ensures Split("\r\n" + rest, '\n') == ["\r"] + Split(rest, '\n') && CrlfParts(["\r"] + Split(rest, '\n'))
  {
    SplitFirst("\r", '\n', rest);
    assert "\r" + ['\n'] + rest == "\r\n" + rest;
  }

  lemma {:induction false} CharFirst(c: char, rest: string)
    requires c != '\r' && c != '\n' && CrlfParts(Split(rest, '\n'))
    ensures CrlfParts(Split([c] + rest, '\n'))
  {
    var parts := Split(rest, '\n');
    assert ([c] + rest)[1..] == rest;
    assert Split([c] + rest, '\n') == [[c] + parts[0]] + parts[1..];
    if |parts| > 1 {
      var first := [c] + parts[0];
      assert first[..|first| - 1] == [c] + parts[0][..|parts[0]| - 1];
    }
  }

  lemma {:induction false} CrlfSplits(text: string)
    ensures CrlfParts(Split(WithCrlf(text), '\n'))
    decreases |text|
  {
    hide CrlfParts;
    if text == "" {
      assert Split("", '\n') == [""];
      NoParts();
    } else if text[0] == '\r' && |text| > 1 && text[1] == '\n' {
      CrlfSplits(text[2..]);
      BreakFirst(WithCrlf(text[2..]));
    } else {
      CrlfSplits(text[1..]);
      if text[0] == '\r' || text[0] == '\n' {
        BreakFirst(WithCrlf(text[1..]));
      } else {
        CharFirst(text[0], WithCrlf(text[1..]));
      }
    }
  }

  lemma NoParts()
    ensures CrlfParts([""])
  {
  }

  lemma {:induction false} StrippedHaveNoReturn(lines: seq<string>)
    requires forall i ::
               0 <= i < |lines| ==>
                 lines[i] != "" && lines[i][|lines[i]| - 1] == '\r' && '\r' !in lines[i][..|lines[i]| - 1]
    ensures forall line <- StripReturns(lines) :: '\r' !in line
  {
    if lines != [] {
      StrippedHaveNoReturn(lines[1..]);
    }
  }

  lemma {:induction false} TrimmedHaveNoReturn(lines: seq<string>)
    requires forall line <- lines :: '\r' !in line
    ensures forall line <- TrimmedNonEmpty(lines) :: '\r' !in line
  {
    if lines != [] {
      assert lines[0] in lines;
      assert forall line <- lines[1..] :: line in lines;
      TrimmedHaveNoReturn(lines[1..]);
      TrimTwice(lines[0]);
    }
  }

  /** A URI submitted by a browser holds no carriage return. */
  lemma BrowserSendsNoReturn(text: string)
    ensures forall uri <- RedirectUriList(WithCrlf(text)) :: '\r' !in uri
  {
    var parts := Split(WithCrlf(text), '\n');
    CrlfSplits(text);
    StrippedHaveNoReturn(parts[..|parts| - 1]);
    TrimmedHaveNoReturn(Lines(WithCrlf(text)));
  }

  lemma {:induction false} NoBreaks(uri: string, rest: string)
    requires '\r' !in uri && '\n' !in uri
    ensures WithCrlf(uri + rest) == uri + WithCrlf(rest)
  {
    if uri == "" {
      assert uri + rest == rest;
    } else {
      assert (uri + rest)[1..] == uri[1..] + rest && uri == [uri[0]] + uri[1..];
      NoBreaks(uri[1..], rest);
    }
  }

  function WithReturns(lines: seq<string>): seq<string> {
    if lines == [] then [] else [lines[0] + "\r"] + WithReturns(lines[1..])
  }

  lemma {:induction false} ReturnsStripped(lines: seq<string>)
    ensures StripReturns(WithReturns(lines)) == lines
  {
    if lines != [] {
      ReturnsStripped(lines[1..]);
    }
  }

  /** What the browser sends for the URIs of a page splits into them again, all but the last with a carriage return. */
  lemma {:induction false} BrowserLines(uris: seq<string>)
    requires uris != [] && forall uri <- uris :: '\r' !in uri && '\n' !in uri
    ensures Split(WithCrlf(Join(uris, '\n')), '\n') == WithReturns(uris[..|uris| - 1]) + [uris[|uris| - 1]]
  {
    assert uris[0] in uris && forall uri <- uris[1..] :: uri in uris;
    if |uris| == 1 {
      NoBreaks(uris[0], "");
      assert uris[0] + "" == uris[0] && WithCrlf("") == "";
      SplitSingle(uris[0], '\n');
    } else {
      var rest := Join(uris[1..], '\n');
      BrowserLines(uris[1..]);
      FirstBrowserLine(uris[0], rest);
      hide Split, WithCrlf;
      assert Join(uris, '\n') == uris[0] + ['\n'] + rest;
      assert uris[1..][..|uris| - 2] == uris[1..|uris| - 1] && uris[..|uris| - 1][1..] == uris[1..|uris| - 1];
    }
  }

  lemma FirstBrowserLine(uri: string, rest: string)
    requires '\r' !in uri && '\n' !in uri
    ensures Split(WithCrlf(uri + ['\n'] + rest), '\n') == [uri + "\r"] + Split(WithCrlf(rest), '\n')
  {
    NoBreaks(uri, ['\n'] + rest);
    assert uri + ['\n'] + rest == uri + (['\n'] + rest);
    assert (['\n'] + rest)[1..] == rest;
    assert uri + ("\r\n" + WithCrlf(rest)) == (uri + "\r") + ['\n'] + WithCrlf(rest);
    SplitFirst(uri + "\r", '\n', WithCrlf(rest));
  }

  lemma BrowserListsThem(uris: seq<string>)
    requires uris != [] && forall uri <- uris :: IsLine(uri) && '\r' !in uri
    ensures Lines(WithCrlf(Join(uris, '\n'))) == uris
  {
    var n := |uris| - 1;
    BrowserLines(uris);
    ReturnsStripped(uris[..n]);
    var parts := Split(WithCrlf(Join(uris, '\n')), '\n');
    assert parts[..|parts| - 1] == WithReturns(uris[..n]) && parts[|parts| - 1] == uris[n];
    assert IsLine(uris[n]) && uris == uris[..n] + [uris[n]];
  }

  /**
   * Through a browser, the textarea gives back its URIs exactly when each fits on a line and holds no carriage
   * return.
   */
  lemma TextareaThroughBrowser(uris: seq<string>)
    ensures RedirectUriList(WithCrlf(Join(uris, '\n'))) == uris <==> forall uri <- uris :: IsLine(uri) && '\r' !in uri
  {
    ListedUrisAreLines(WithCrlf(Join(uris, '\n')));
    BrowserSendsNoReturn(Join(uris, '\n'));
    hide Trim;
    if uris == [] {
      assert Split("", '\n') == [""];
    } else if forall uri <- uris :: IsLine(uri) && '\r' !in uri {
      BrowserListsThem(uris);
      TrimmedAreLines(uris);
      hide Lines, Join, TrimmedNonEmpty;
    }
  }

  // ------------------------------------------------------------- editing

  /** `AppForm::from_client`. */
  function FromClient(c: Client): AppForm {
    AppForm(None, c.name, Join(c.redirectUris, '\n'), c.allowedScopes,
            if c.IsConfidential() then "confidential" else "public", false)
  }

  lemma {:induction false} NothingToDeduplicate(uris: seq<string>)
    requires NoDuplicates(uris)
    ensures FirstOccurrences(uris) == uris
  {
    if uris != [] {
      var front := uris[..|uris| - 1];
      assert uris == front + [uris[|uris| - 1]];
      NothingToDeduplicate(front);
    }
  }

  /** What the edit page of an application submits when nothing is typed: name, text with CRLF, and checked scopes. */
  ghost predicate SubmitsUnchanged(page: Params.Pairs, saved: Client) {
    && Last(Values(page, "name")) == FromClient(saved).name
    && Last(Values(page, "redirect_uris")) == WithCrlf(FromClient(saved).redirectUris)
    && forall scope :: scope in Values(page, "scope") <==> scope in FromClient(saved).scopes
  }

  /**
   * An application saved from a submitted form shows an edit page whose unchanged submission, by
   * a browser, is accepted again and means the same details, exactly when no saved URI holds a
   * carriage return.
   */
  lemma EditPageKeepsDetails(env: Env, pairs: Params.Pairs, saved: Client, page: Params.Pairs)
    requires CheckedDetails(env, Submitted(pairs).Details()).Ok?
    requires var checked := CheckedDetails(env, Submitted(pairs).Details()).value;
             saved.name == checked.name && saved.redirectUris == checked.redirectUris
             && saved.allowedScopes == Sorted(checked.scopes)
    requires SubmitsUnchanged(page, saved)
    ensures CheckedDetails(env, Submitted(page).Details()) == CheckedDetails(env, Submitted(pairs).Details())
            <==> forall uri <- saved.redirectUris :: '\r' !in uri
  {
    hide CheckedDetails, Submitted, Trim, FirstOccurrences, RedirectUriList, Join, WithCrlf, IsLine, NoDuplicates,
      SubmitsUnchanged;
    var checked := CheckedDetails(env, Submitted(pairs).Details()).value;
    SavedDetails(env, pairs);
    UnchangedDetails(page, saved);
    assert (set s | s in saved.allowedScopes) == checked.scopes;
    SameDetails(env, Submitted(pairs).Details(), RedirectUriList(WithCrlf(Join(saved.redirectUris, '\n'))));
    SameUris(saved.redirectUris);
  }

  lemma SameDetails(env: Env, d: ClientDetails, uris: seq<string>)
    requires CheckedDetails(env, d).Ok? && Trim(CheckedDetails(env, d).value.name) == CheckedDetails(env, d).value.name
    ensures var checked := CheckedDetails(env, d).value;
            CheckedDetails(env, ClientDetails(checked.name, uris, checked.scopes)) == Ok(checked)
            <==> FirstOccurrences(uris) == checked.redirectUris
  {
    hide Trim, FirstOccurrences, FirstBadUri, RedirectUriProblem;
  }

  lemma SameUris(uris: seq<string>)
    requires NoDuplicates(uris) && forall uri <- uris :: IsLine(uri)
    ensures FirstOccurrences(RedirectUriList(WithCrlf(Join(uris, '\n')))) == uris
            <==> forall uri <- uris :: '\r' !in uri
  {
    hide NoDuplicates, IsLine, RedirectUriList, WithCrlf, Join;
    var list := RedirectUriList(WithCrlf(Join(uris, '\n')));
    BrowserSendsNoReturn(Join(uris, '\n'));
    TextareaThroughBrowser(uris);
    NothingToDeduplicate(uris);
    FirstOccurrencesMeaning(list);
    hide FirstOccurrences;
    if FirstOccurrences(list) == uris {
      forall uri | uri in uris ensures '\r' !in uri {
        assert uri in list;
      }
    }
  }

  lemma SavedDetails(env: Env, pairs: Params.Pairs)
    requires CheckedDetails(env, Submitted(pairs).Details()).Ok?
    ensures var checked := CheckedDetails(env, Submitted(pairs).Details()).value;
            Trim(checked.name) == checked.name && NoDuplicates(checked.redirectUris)
            && forall uri <- checked.redirectUris :: IsLine(uri)
  {
    hide Submitted, Trim, FirstOccurrences, RedirectUriList, IsLine, NoDuplicates, FirstBadUri;
    var form := Submitted(pairs);
    TrimTwice(form.name);
    ListedUrisAreLines(form.redirectUris);
    FirstOccurrencesMeaning(RedirectUriList(form.redirectUris));
  }

  lemma UnchangedDetails(page: Params.Pairs, saved: Client)
    requires SubmitsUnchanged(page, saved)
    ensures Submitted(page).Details()
            == ClientDetails(saved.name, RedirectUriList(WithCrlf(Join(saved.redirectUris, '\n'))),
                             set s | s in saved.allowedScopes)
  {
    hide Values, RedirectUriList, WithCrlf, Join;
    FirstOccurrencesMeaning(Values(page, "scope"));
    assert Submitted(page).ScopeSet() == set s | s in saved.allowedScopes;
  }

  /** What a browser submitted in the first place holds none, so saving without typing changes nothing. */
  lemma BrowserSubmissionsHoldNoReturn(env: Env, pairs: Params.Pairs, typed: string)
    requires CheckedDetails(env, Submitted(pairs).Details()).Ok?
             && Last(Values(pairs, "redirect_uris")) == WithCrlf(typed)
    ensures forall uri <- CheckedDetails(env, Submitted(pairs).Details()).value.redirectUris :: '\r' !in uri
  {
    BrowserSendsNoReturn(typed);
    FirstOccurrencesMeaning(RedirectUriList(WithCrlf(typed)));
    hide FirstOccurrences, RedirectUriList, WithCrlf, Values, Trim, FirstBadUri;
  }
}
