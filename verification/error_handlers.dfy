/** The response the application gives to a request body that fails
    validation: status 422 and either the one message or the whole list. */
module ErrorHandlers {
  import Results
  import Schemas

  const UnprocessableEntity := 422

  /** One entry of the validation error list. */
  datatype ValidationIssue = ValidationIssue(location: seq<string>, msg: string)

  /** `{"msg": m}` or `{"errors": [m, …]}`. */
  datatype ErrorBody = Single(msg: string) | Many(errors: seq<string>)

  datatype JsonResponse = JsonResponse(status: int, body: ErrorBody)

  /** The message of each issue, in order. */
  function Messages(issues: seq<ValidationIssue>): (r: seq<string>)
    ensures |r| == |issues|
    ensures forall i :: 0 <= i < |issues| ==> r[i] == issues[i].msg
  {
    if |issues| == 0 then [] else [issues[0].msg] + Messages(issues[1..])
  }

  /** The messages a body carries, whichever shape it has. */
  function BodyMessages(b: ErrorBody): (r: seq<string>)
    ensures b.Single? ==> r == [b.msg]
    ensures b.Many? ==> r == b.errors
  {
    match b
    case Single(m) => [m]
    case Many(ms) => ms
  }

  /** The handler: always 422; exactly one message is sent on its own,
      none or several as a list. */
  function ValidationResponse(issues: seq<ValidationIssue>): (r: JsonResponse)
    ensures r.status == UnprocessableEntity
    ensures r.body.Single? <==> |issues| == 1
    ensures r.body.Single? ==> r.body.msg == issues[0].msg
  {
    var messages := Messages(issues);
    if |messages| == 1 then JsonResponse(UnprocessableEntity, Single(messages[0]))
    else JsonResponse(UnprocessableEntity, Many(messages))
  }

  /** Nothing is lost or reordered: the body's messages are the issues'
      messages, one per issue, in the original order. */
  lemma ResponseKeepsMessages(issues: seq<ValidationIssue>)
    ensures var ms := BodyMessages(ValidationResponse(issues).body);
      && |ms| == |issues|
      && forall i :: 0 <= i < |issues| ==> ms[i] == issues[i].msg
  {
  }

  /** Issues raised at one location, one per message. */
  function IssuesAt(location: seq<string>, messages: seq<string>): (r: seq<ValidationIssue>)
    ensures Messages(r) == messages
    ensures forall i :: 0 <= i < |r| ==> r[i].location == location
  {
    if |messages| == 0 then [] else [ValidationIssue(location, messages[0])] + IssuesAt(location, messages[1..])
  }

  /** A sign-up body whose only fault is a short password is answered with
      that single message. */
  lemma ShortPasswordSignupResponse(username: string, password: string)
    requires Schemas.UsernameError(username).None?
    requires |password| < Schemas.PasswordMinLength
    ensures ValidationResponse(IssuesAt(["body", "password"], Schemas.SignupErrors(username, Results.None, password, password)))
      == JsonResponse(UnprocessableEntity, Single(Schemas.PasswordTooShort))
  {
  }
}
