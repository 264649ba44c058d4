/**
 * The sign-in screen: two text fields, a login button that posts the credentials, and a
 * redirect back to where the user came from once the server accepts them. The `signin`
 * call and the auth store are inputs: the login step takes the server's answer as a
 * parameter, and the screen keeps a log of the requests it sent and the credential it
 * stored.
 */
module Signin {
  import opened Wrappers

  /** The screen's `values` state. */
  datatype Values = Values(email: string, password: string, error: string, redirectToReferrer: bool)

  const InitialValues := Values("", "", "", false)

  /** The two inputs wired to `handleChange`. */
  datatype Field = Email | Password

  /** The body of the `signin` request; None stands for `undefined`, which JSON leaves out. */
  datatype Credentials = Credentials(email: Option<string>, password: Option<string>)

  /** The object the server answers with when it accepts the credentials, as the auth store
    * keeps it. */
  datatype Session = Session(json: string)

  /** How the `signin` promise ended. */
  datatype SigninReply =
    | Unanswered                             // it rejected, or resolved to `undefined`
    | Reply(error: string, session: Session) // an object; `error` is "" when falsy

  /** A router location, as `location.state.from` carries it. */
  datatype Target = Target(pathname: string)

  /** `location.state`: absent, or an object that may carry `from`. */
  datatype LocationState = NoState | State(from: Option<Target>)

  /** What the screen renders. */
  datatype SigninView =
    | Redirect(to: Option<Target>)          // `<Navigate to={from} />`; None is `undefined`
    | LoginForm(errorText: Option<string>)  // the form, with the error line when there is one

  const MemberPath := "/member"

  /** `value || undefined` for a text field. */
  function OrUndefined(s: string): (r: Option<string>)
    ensures r.Some? <==> s != ""
    ensures r.Some? ==> r.value == s
  {
    if s == "" then None else Some(s)
  }

  /** What a controlled input shows for an optional value. */
  function OrEmpty(r: Option<string>): string {
    if r.Some? then r.value else ""
  }

  /** The request `clickSubmit` sends: it never carries an empty field, and the fields as
    * typed can be read back from it. */
  function RequestOf(v: Values): (c: Credentials)
    ensures c.email != Some("") && c.password != Some("")
    ensures OrEmpty(c.email) == v.email && OrEmpty(c.password) == v.password
  {
    Credentials(OrUndefined(v.email), OrUndefined(v.password))
  }

  /** The text an input shows. */
  function FieldText(v: Values, field: Field): string {
    match field
    case Email => v.email
    case Password => v.password
  }

  /** `{ ...values, [name]: value }` for one of the two inputs: that input now shows `value`,
    * the other input, the error and the redirect flag are as they were. */
  function WithField(v: Values, field: Field, value: string): (w: Values)
    ensures FieldText(w, field) == value
    ensures forall f :: f != field ==> FieldText(w, f) == FieldText(v, f)
    ensures w.error == v.error && w.redirectToReferrer == v.redirectToReferrer
  {
    match field
    case Email => v.(email := value)
    case Password => v.(password := value)
  }

  /** The values after the `signin` promise settles. */
  function AfterReply(v: Values, reply: SigninReply): (w: Values)
    ensures w.email == v.email && w.password == v.password
    ensures reply.Unanswered? ==> w == v
    ensures reply.Reply? && reply.error != "" ==>
              w.error == reply.error && w.redirectToReferrer == v.redirectToReferrer
    ensures reply.Reply? && reply.error == "" ==> w.error == "" && w.redirectToReferrer
  {
    match reply
    case Unanswered => v
    case Reply(e, _) =>
      if e != "" then v.(error := e) else v.(error := "", redirectToReferrer := true)
  }

  /** `from` as destructured from `location.state || { from: { pathname: "/member" } }`. */
  function RedirectTarget(state: LocationState): (t: Option<Target>)
    ensures state.NoState? ==> t == Some(Target(MemberPath))
    ensures state.State? ==> t == state.from
  {
    match state
    case NoState => Some(Target(MemberPath))
    case State(from) => from
  }

  /** The render choice: the redirect once the user is signed in, the form otherwise. */
  function ViewOf(v: Values, state: LocationState): (view: SigninView)
    ensures view.Redirect? <==> v.redirectToReferrer
    ensures view.Redirect? ==> view.to == RedirectTarget(state)
    ensures view.LoginForm? ==> (view.errorText.Some? <==> v.error != "")
    ensures view.LoginForm? && view.errorText.Some? ==> view.errorText.value == v.error
  {
    if v.redirectToReferrer then Redirect(RedirectTarget(state))
    else LoginForm(if v.error != "" then Some(v.error) else None)
  }

  /** Once the user is signed in, no later answer sends them back to the form. */
  lemma {:induction false} RedirectIsFinal(v: Values, replies: seq<SigninReply>, state: LocationState)
    requires v.redirectToReferrer
    ensures ViewOf(ReplayReplies(v, replies), state) == Redirect(RedirectTarget(state))
    decreases |replies|
  {
    if |replies| > 0 {
      RedirectIsFinal(v, replies[..|replies| - 1], state);
    }
  }

  /** The values after several logins have settled, in order. */
  function ReplayReplies(v: Values, replies: seq<SigninReply>): Values
    decreases |replies|
  {
    if |replies| == 0 then v
    else AfterReply(ReplayReplies(v, replies[..|replies| - 1]), replies[|replies| - 1])
  }

  class SigninScreen {
    /** `location.state` of the route that opened the screen. */
    const locationState: LocationState

    var values: Values
    /** Bodies of the `signin` calls made, in order. */
    var requests: seq<Credentials>
    /** What `auth.authenticate` last stored. */
    var session: Option<Session>
    /** Paths passed to `navigate`. */
    var navigations: seq<string>

    constructor(locationState: LocationState)
      ensures this.locationState == locationState
      ensures values == InitialValues && requests == [] && session == None && navigations == []
    {
      this.locationState := locationState;
      values := InitialValues;
      requests := [];
      session := None;
      navigations := [];
    }

    function CurrentView(): SigninView
      reads this
    {
      ViewOf(values, locationState)
    }

    /** `handleChange(name)` applied to an input event. */
    method HandleChange(field: Field, value: string)
      modifies this`values
      ensures values == WithField(old(values), field, value)
    {
      match field {
        case Email => values := values.(email := value);
        case Password => values := values.(password := value);
      }
    }

    /** `clickSubmit`, with the answer of `signin` applied as one step. */
    method ClickSubmit(reply: SigninReply)
      modifies this`values, this`requests, this`session
      ensures requests == old(requests) + [RequestOf(old(values))]
      ensures values == AfterReply(old(values), reply)
      ensures session == (if reply.Reply? && reply.error == "" then Some(reply.session) else old(session))
    {
      var user := Credentials(OrUndefined(values.email), OrUndefined(values.password));
      requests := requests + [user];
      if reply.Reply? {
        if reply.error != "" {
          values := values.(error := reply.error);
        } else {
          session := Some(reply.session);
          values := values.(error := "", redirectToReferrer := true);
        }
      }
    }

    /** `clickRegister`. */
    method ClickRegister()
      modifies this`navigations
      ensures navigations == old(navigations) + ["/signup"]
    {
      navigations := navigations + ["/signup"];
    }
  }

  /**
   * Open the screen, type both fields and press login once: the request carries the
   * non-empty fields, a rejected login shows its error on the form, and only an accepted
   * one stores the session and redirects to where the user came from.
   */
  method LoginOnce(state: LocationState, email: string, password: string, reply: SigninReply)
    returns (request: Credentials, stored: Option<Session>, view: SigninView)
    ensures request == Credentials(OrUndefined(email), OrUndefined(password))
    ensures view.Redirect? <==> reply.Reply? && reply.error == ""
    ensures view.Redirect? ==> view.to == RedirectTarget(state) && stored == Some(reply.session)
    ensures !view.Redirect? ==> stored == None
    ensures reply.Reply? && reply.error != "" ==> view == LoginForm(Some(reply.error))
    ensures reply.Unanswered? ==> view == LoginForm(None)
  {
    var screen := new SigninScreen(state);
    screen.HandleChange(Email, email);
    screen.HandleChange(Password, password);
    screen.ClickSubmit(reply);
    request := screen.requests[0];
    stored := screen.session;
    view := screen.CurrentView();
  }
}
