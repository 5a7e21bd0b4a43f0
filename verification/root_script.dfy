/** The standalone site script (script.js): its API base URL, the contact form's checks and
    request, how it reads the server's answer, and the mouse-move particle trail. The typing
    animation and the Konami buffer it shares with public/script.js are in the Effects module. */
module RootScript {
  import opened Text
  import opened Email

  const DefaultApi := "http://localhost:3000"

  /** `API_URL`: an injected `window.API_URL`, else the page's origin unless it is missing or
      the string `"null"` (a page opened from a file), else the local default. */
  function ApiUrl(injected: Option<string>, origin: Option<string>): string {
    if injected.Some? && injected.value != "" then injected.value
    else if origin.Some? && origin.value != "" && origin.value != "null" then origin.value
    else DefaultApi
  }

  lemma ApiUrlSpec(injected: Option<string>, origin: Option<string>)
    ensures var u := ApiUrl(injected, origin);
      var hasInjected := injected.Some? && injected.value != "";
      var hasOrigin := origin.Some? && origin.value != "" && origin.value != "null";
      && (hasInjected ==> u == injected.value)
      && (!hasInjected && hasOrigin ==> u == origin.value)
      && (!hasInjected && !hasOrigin ==> u == DefaultApi)
      && (u == "null" ==> hasInjected)
  {
  }

  // ---------------------------------------------------------------- contact form

  /** The JSON body the form posts: exactly these three fields. */
  datatype ContactBody = ContactBody(name: string, email: string, message: string)

  datatype Submission =
    | Blocked(toast: string)
    | Post(url: string, body: ContactBody)

  const FillAllFields := "Please fill in all fields"
  const InvalidEmail := "Please enter a valid email address"

  /** The submit handler up to the request: trim the three inputs, refuse empty ones, refuse
      an email the form pattern rejects, otherwise post the trimmed values. */
  function SubmitContact(apiUrl: string, name: string, email: string, message: string): Submission {
    var n := Trim(name);
    var e := Trim(email);
    var m := Trim(message);
    if n == "" || e == "" || m == "" then Blocked(FillAllFields)
    else if !FormEmailOk(e) then Blocked(InvalidEmail)
    else Post(apiUrl + "/api/contact", ContactBody(n, e, m))
  }

  /** A request goes out exactly when the trimmed fields are non-empty and the trimmed email
      has the form's shape; it carries the trimmed values, which have no white space at
      either end. */
  lemma SubmitContactSpec(apiUrl: string, name: string, email: string, message: string)
    ensures var s := SubmitContact(apiUrl, name, email, message);
      && (s.Post? <==> Trim(name) != "" && Trim(message) != "" && FormPattern(Trim(email)))
      && (s.Post? ==> s.body == ContactBody(Trim(name), Trim(email), Trim(message)))
      && (s.Post? ==> !IsSpace(s.body.name[0]) && !IsSpace(s.body.name[|s.body.name| - 1]))
      && (s == Blocked(FillAllFields) <==> Trim(name) == "" || Trim(email) == "" || Trim(message) == "")
  {
    FormEmailOkIff(Trim(email));
    TrimIsSlice(name);
    if FormPattern(Trim(email)) {
      assert Trim(email) != "";
    }
  }

  // ---------------------------------------------------------------- the server's answer

  /** The body of the answer: parsed JSON (its `success` truthiness and `message`), or text
      that is not JSON. */
  datatype Reply = Json(success: bool, message: Option<string>) | Plain(text: string)

  datatype Toast = Success(text: string) | Error(text: string)

  /** What the page does with an answer: the toast it shows and whether the form is reset. */
  datatype Outcome = Outcome(toast: Toast, reset: bool)

  /** `data` after the JSON fallback: a text body becomes `{success: response.ok, message: text}`. */
  function ReplyData(ok: bool, reply: Reply): (bool, Option<string>) {
    match reply
    case Json(s, m) => (s, m)
    case Plain(t) => (ok, Some(t))
  }

  function OrElse(m: Option<string>, fallback: string): string {
    if m.Some? && m.value != "" then m.value else fallback
  }

  /** What `showToast(m)` writes: the template literal prints a missing message as
      `undefined`. */
  function Shown(m: Option<string>): (r: string)
    ensures m.Some? ==> r == m.value
    ensures m.None? ==> r == "undefined"
  {
    if m.Some? then m.value else "undefined"
  }

  /** The handler after the request. */
  function Interpret(ok: bool, status: int, reply: Reply): Outcome {
    var (success, message) := ReplyData(ok, reply);
    if !ok then Outcome(Error(OrElse(message, "Server error (" + IntToDecimal(status) + ")")), false)
    else if success then Outcome(Success(Shown(message)), true)
    else Outcome(Error(OrElse(message, "Failed to send message. Please try again.")), false)
  }

  /** A failed status is always an error, whatever the body says; a successful status with
      a text body counts as success and shows the text; a JSON success shows its message, or
      `undefined` without one; the form is reset exactly on success. */
  lemma InterpretSpec(ok: bool, status: int, reply: Reply)
    ensures var o := Interpret(ok, status, reply);
      && (o.reset <==> o.toast.Success?)
      && (!ok ==> o.toast.Error?)
      && (reply.Plain? ==> (o.toast.Success? <==> ok))
      && (reply.Plain? && ok ==> o.toast == Success(reply.text))
      && (reply.Json? ==> (o.toast.Success? <==> ok && reply.success))
      && (reply.Json? && ok && reply.success ==> o.toast == Success(Shown(reply.message)))
  {
  }

  /** The outer `catch`: a request that never got an answer, or any error thrown while
      handling one. The hint depends on whether the page fell back to the local default. */
  function NetworkFailure(apiUrl: string, error: string): Toast {
    if apiUrl == DefaultApi then Error(LocalServerHint)
    else Error("Network error: " + error)
  }

  const LocalServerHint := "Cannot reach server. " + "Make sure you've started the local server (npm start) and opened the site via http://localhost:3000"

  /** The catch always shows an error: the local-server hint exactly when the page uses the
      default address, and otherwise the error's own message after `Network error: `. */
  lemma NetworkFailureSpec(apiUrl: string, error: string)
    ensures var t := NetworkFailure(apiUrl, error);
      && t.Error?
      && (apiUrl == DefaultApi <==> t.text == LocalServerHint)
      && (apiUrl != DefaultApi ==> t.text == "Network error: " + error)
  {
    if apiUrl != DefaultApi {
      assert ("Network error: " + error)[0] == 'N';
      assert LocalServerHint[0] == "Cannot reach server. "[0];
    }
  }

  /** What `fetch` produced: no answer at all (the rejection's message), or an answer with its
      `ok` flag, its status and its body. */
  datatype Answer = Unreachable(error: string) | Answered(ok: bool, status: int, reply: Reply)

  /** The statuses whose answers have no body at all (section 2.2.3 of the Fetch standard). */
  predicate NullBodyStatus(status: int) {
    status == 101 || status == 103 || status == 204 || status == 205 || status == 304
  }

  /** The handler as written. `response.json()` reads the body even when it fails to parse it,
      so the fallback's `response.text()` reads a used body, which rejects; `usedBodyError` is
      that rejection's message, and it lands in the outer catch. An answer without a body has
      nothing to use up: there `text()` gives `""` and the fallback runs. */
  function HandleAsWritten(apiUrl: string, answer: Answer, usedBodyError: string): Outcome {
    match answer
    case Unreachable(e) => Outcome(NetworkFailure(apiUrl, e), false)
    case Answered(ok, status, reply) =>
      if reply.Plain? && NullBodyStatus(status) then Interpret(ok, status, Plain(""))
      else if reply.Plain? then Outcome(NetworkFailure(apiUrl, usedBodyError), false)
      else Interpret(ok, status, reply)
  }

  /** The handler with the body read once, so a text body reaches the plain-text fallback. */
  function Handle(apiUrl: string, answer: Answer): Outcome {
    match answer
    case Unreachable(e) => Outcome(NetworkFailure(apiUrl, e), false)
    case Answered(ok, status, reply) => Interpret(ok, status, reply)
  }

  /** As written, a body that is not JSON ends in the catch's network-error toast and never
      resets the form, unless the status has no body, where the text fallback sees `""`: a
      `204` then shows an empty success and resets the form. JSON bodies are handled as
      intended. */
  lemma HandleAsWrittenSpec(apiUrl: string, answer: Answer, usedBodyError: string)
    ensures var o := HandleAsWritten(apiUrl, answer, usedBodyError);
      && (answer.Answered? && answer.reply.Plain? && !NullBodyStatus(answer.status) ==>
            o == Outcome(NetworkFailure(apiUrl, usedBodyError), false) && o.toast.Error?)
      && (answer.Answered? && answer.reply.Plain? && NullBodyStatus(answer.status) ==>
            o == Handle(apiUrl, Answered(answer.ok, answer.status, Plain(""))))
      && (answer.Answered? && answer.reply.Plain? && answer.status == 204 && answer.ok ==>
            o == Outcome(Success(""), true))
      && (answer.Answered? && answer.reply.Json? ==> o == Handle(apiUrl, answer))
      && (answer.Unreachable? ==> o == Handle(apiUrl, answer))
  {
    NetworkFailureSpec(apiUrl, usedBodyError);
  }

  /** The discrepancy: a 200 answer whose body is the text `Thanks` is shown as a success and
      resets the form when the body is read once, but as written it shows a network error. */
  lemma TextReplyLost(apiUrl: string, usedBodyError: string)
    ensures Handle(apiUrl, Answered(true, 200, Plain("Thanks"))) == Outcome(Success("Thanks"), true)
    ensures HandleAsWritten(apiUrl, Answered(true, 200, Plain("Thanks")), usedBodyError).toast.Error?
    ensures !HandleAsWritten(apiUrl, Answered(true, 200, Plain("Thanks")), usedBodyError).reset
  {
    NetworkFailureSpec(apiUrl, usedBodyError);
  }

  /** With the body read once: no answer is a network error, an answer is `Interpret`ed, and
      the form is reset exactly when a success toast is shown. */
  lemma HandleSpec(apiUrl: string, answer: Answer)
    ensures var o := Handle(apiUrl, answer);
      && (o.reset <==> o.toast.Success?)
      && (answer.Unreachable? ==> o == Outcome(NetworkFailure(apiUrl, answer.error), false))
      && (answer.Answered? && answer.reply.Plain? && answer.ok ==> o.toast == Success(answer.reply.text))
      && (answer.Answered? ==> (o.toast.Success? <==> answer.ok && ReplyData(answer.ok, answer.reply).0))
  {
    NetworkFailureSpec(apiUrl, "");
    if answer.Answered? {
      InterpretSpec(answer.ok, answer.status, answer.reply);
    }
  }

  // ---------------------------------------------------------------- particle trail

  const MaxParticles := 50

  datatype Particle = Particle(x: int, y: int)

  /** The `particles` array of the mousemove trail. */
  class ParticleTrail {
    var particles: seq<Particle>

    constructor ()
      ensures particles == []
    {
      particles := [];
    }

    /** A mousemove; `spawn` is the outcome of the `Math.random() > 0.7` draw. A new particle
        is pushed and, above the limit, the oldest one is dropped. */
    method OnMouseMove(spawn: bool, x: int, y: int)
      requires |particles| <= MaxParticles
      modifies this
      ensures |particles| <= MaxParticles
      ensures spawn && |old(particles)| < MaxParticles ==> particles == old(particles) + [Particle(x, y)]
      ensures spawn && |old(particles)| == MaxParticles ==> particles == old(particles)[1..] + [Particle(x, y)]
      ensures !spawn ==> particles == old(particles)
    {
      if spawn {
        particles := particles + [Particle(x, y)];
        if |particles| > MaxParticles {
          particles := particles[1..];
        }
      }
    }

    /** A particle's removal timer: `particles.shift()`, which does nothing on an empty array. */
    method Expire()
      modifies this
      ensures particles == if old(particles) == [] then [] else old(particles)[1..]
    {
      if particles != [] {
        particles := particles[1..];
      }
    }
  }
}
