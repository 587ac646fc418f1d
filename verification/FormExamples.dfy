/** Redirect URIs that the developer portal accepts and its edit page does not give back. */
module FormExamples {
  import opened Wrappers
  import opened Text
  import opened Schema
  import opened Clients
  import opened AppForms
  import Params
  import Scope

  const RETURN_URI := "https://a\rb"
  const BREAK_URI := "https://a\nb"

  function Fields(uris: string): Params.Pairs { [("name", "A"), ("redirect_uris", uris), ("scope", Scope.OPENID)] }

  function Saved(uri: string): Client {
    Client(1, "a", None, "A", [uri], Sorted({Scope.OPENID}), 0, 0, None, None)
  }

  lemma FieldValues(uris: string)
    ensures Submitted(Fields(uris)) == AppForm(None, "A", uris, [Scope.OPENID], "", false)
  {
    var pairs := Fields(uris);
    ValuesAre(uris);
    assert FirstOccurrences([Scope.OPENID][..0]) == [];
    hide Values, Fields;
  }

  lemma ValuesAre(uris: string)
    ensures var pairs := Fields(uris);
            && Values(pairs, "csrf_token") == [] && Values(pairs, "name") == ["A"]
            && Values(pairs, "redirect_uris") == [uris]
            && Values(pairs, "scope") == [Scope.OPENID] && Values(pairs, "client_type") == []
            && Values(pairs, "confirm") == []
  {
    var pairs := Fields(uris);
    hide Values;
    assert |"csrf_token"| == 10 && |"client_type"| == 11 && |"confirm"| == 7;
    NoValues(uris, "csrf_token");
    NoValues(uris, "client_type");
    NoValues(uris, "confirm");
    assert |"name"| == 4 && |"redirect_uris"| == 13 && |"scope"| == 5;
    ValuesOfThree(pairs, "name");
    ValuesOfThree(pairs, "redirect_uris");
    ValuesOfThree(pairs, "scope");
  }

  lemma NoValues(uris: string, name: string)
    requires |name| != 4 && |name| != 13 && |name| != 5
    ensures Values(Fields(uris), name) == []
  {
    assert |"name"| == 4 && |"redirect_uris"| == 13 && |"scope"| == 5;
    ValuesOfThree(Fields(uris), name);
  }

  lemma ValuesOfThree(pairs: Params.Pairs, name: string)
    requires |pairs| == 3
    ensures Values(pairs, name)
            == (if pairs[0].0 == name then [pairs[0].1] else []) + (if pairs[1].0 == name then [pairs[1].1] else [])
               + (if pairs[2].0 == name then [pairs[2].1] else [])
  {
    assert pairs[..2][..1] == pairs[..1] && pairs[..1][..0] == [] && pairs[..2][1] == pairs[1]
           && pairs[..1][0] == pairs[0];
    assert Values(pairs[..1][..0], name) == [];
    assert Values(pairs[..1], name) == if pairs[0].0 == name then [pairs[0].1] else [];
    assert Values(pairs[..2], name)
           == Values(pairs[..2][..1], name) + if pairs[..2][1].0 == name then [pairs[..2][1].1] else [];
  }

  lemma AcceptedFields(env: Env, uri: string)
    requires RedirectUriProblem(env, uri).None? && Scope.OPENID in env.registry
    ensures var d := ClientDetails("A", [uri], {Scope.OPENID}); CheckedDetails(env, d) == Ok(d)
  {
    assert FirstOccurrences([uri][..0]) == [];
    assert FirstOccurrences([uri]) == [uri];
    assert FirstBadUri(env, [uri]).None?;
    assert Trim("A") == "A";
    hide RedirectUriProblem;
  }

  lemma ReturnUriFits()
    ensures IsLine(RETURN_URI) && '\r' in RETURN_URI && RedirectUriList(RETURN_URI) == [RETURN_URI]
  {
    assert RETURN_URI[9] == '\r';
    assert Trim(RETURN_URI) == RETURN_URI;
    TextareaRoundTrip([RETURN_URI]);
    assert Join([RETURN_URI], '\n') == RETURN_URI;
  }

  /**
   * A submission made without a browser can hold a lone carriage return. Wherever the URL parser
   * accepts such a URI, the details are accepted, and the edit page, submitted unchanged, means
   * other details.
   */
  lemma EditPageChangesDetails(env: Env)
    requires RedirectUriProblem(env, RETURN_URI).None? && Scope.OPENID in env.registry
    ensures CheckedDetails(env, Submitted(Fields(RETURN_URI)).Details())
            == Ok(ClientDetails(Saved(RETURN_URI).name, Saved(RETURN_URI).redirectUris, {Scope.OPENID}))
    ensures SubmitsUnchanged(Fields(WithCrlf(RETURN_URI)), Saved(RETURN_URI))
    ensures CheckedDetails(env, Submitted(Fields(WithCrlf(RETURN_URI))).Details())
            != CheckedDetails(env, Submitted(Fields(RETURN_URI)).Details())
  {
    hide CheckedDetails, RedirectUriList, IsLine, WithCrlf, RedirectUriProblem, Submitted;
    ReturnUriFits();
    FieldValues(RETURN_URI);
    AcceptedFields(env, RETURN_URI);
    assert (set s | s in [Scope.OPENID]) == {Scope.OPENID};
    UnchangedFields(RETURN_URI);
    EditPageKeepsDetails(env, Fields(RETURN_URI), Saved(RETURN_URI), Fields(WithCrlf(RETURN_URI)));
  }

  lemma UnchangedFields(uri: string)
    ensures SubmitsUnchanged(Fields(WithCrlf(uri)), Saved(uri))
  {
    var page := Fields(WithCrlf(uri));
    assert |"name"| == 4 && |"redirect_uris"| == 13 && |"scope"| == 5;
    ValuesOfThree(page, "name");
    ValuesOfThree(page, "redirect_uris");
    ValuesOfThree(page, "scope");
    assert Join([uri], '\n') == uri;
    assert Sorted({Scope.OPENID})[0] in Sorted({Scope.OPENID});
    hide Values, WithCrlf;
  }

  /**
   * A URI registered on the command line can hold a line break. Wherever the URL parser accepts
   * it, the details are accepted, and the textarea does not give them back.
   */
  lemma TextareaSplitsUri(env: Env)
    requires RedirectUriProblem(env, BREAK_URI).None? && Scope.OPENID in env.registry
    ensures CheckedDetails(env, ClientDetails("A", [BREAK_URI], {Scope.OPENID})).Ok?
    ensures RedirectUriList(FromClient(Saved(BREAK_URI)).redirectUris) != Saved(BREAK_URI).redirectUris
  {
    hide CheckedDetails, RedirectUriProblem, RedirectUriList;
    AcceptedFields(env, BREAK_URI);
    BreakUriIsNoLine();
    assert Join([BREAK_URI], '\n') == BREAK_URI;
    hide IsLine;
    TextareaRoundTrip([BREAK_URI]);
    assert BREAK_URI in [BREAK_URI];
  }

  lemma BreakUriIsNoLine()
    ensures !IsLine(BREAK_URI)
  {
    assert BREAK_URI[9] == '\n';
    hide Trim;
  }
}
