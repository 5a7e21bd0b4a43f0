/** The public site script (public/script.js): where it sends API calls, how it checks the
    contact form, the two-theme switch, the one-time start-up guard, the mobile menu and the
    bounded mouse trail. The typing animation and the Konami buffer it shares with script.js
    are in the Effects module. */
module PublicScript {
  import opened Text
  import opened Email

  // ---------------------------------------------------------------- backend URL

  /** The hosts deployed with the backend on the same domain. */
  predicate HostedPlatform(hostname: string) {
    Contains(hostname, "vercel.app") || Contains(hostname, "onrender.com") || Contains(hostname, "herokuapp.com")
  }

  /** `getApiUrl()`, with `window.BACKEND_URL`, the hostname and the origin as inputs. The
      Netlify branch returns the origin like the default and is folded into it. */
  function GetApiUrl(backendUrl: Option<string>, hostname: string, origin: string): string {
    if backendUrl.Some? && backendUrl.value != "" then backendUrl.value
    else if hostname == "localhost" || hostname == "127.0.0.1" then "http://localhost:3000"
    else if Contains(hostname, "vercel.app") then "https://" + hostname
    else if Contains(hostname, "onrender.com") then "https://" + hostname
    else if Contains(hostname, "herokuapp.com") then "https://" + hostname
    else origin
  }

  /** The priority order: an explicit backend URL, then local development, then the hosted
      platforms (same host over HTTPS), then the page's own origin. */
  lemma GetApiUrlSpec(backendUrl: Option<string>, hostname: string, origin: string)
    ensures var u := GetApiUrl(backendUrl, hostname, origin);
      var explicit := backendUrl.Some? && backendUrl.value != "";
      var local := hostname == "localhost" || hostname == "127.0.0.1";
      && (explicit ==> u == backendUrl.value)
      && (!explicit && local ==> u == "http://localhost:3000")
      && (!explicit && !local && HostedPlatform(hostname) ==> u == "https://" + hostname)
      && (!explicit && !local && !HostedPlatform(hostname) ==> u == origin)
  {
  }

  // ---------------------------------------------------------------- contact form

  /** `validateFormData`: every field present and non-empty, and the form's email shape. */
  predicate ValidateFormData(name: Option<string>, email: Option<string>, message: Option<string>) {
    && name.Some? && name.value != ""
    && email.Some? && email.value != ""
    && message.Some? && message.value != ""
    && FormEmailOk(email.value)
  }

  /** The form is accepted exactly when the three fields are filled and the email matches
      `^[^\s@]+@[^\s@]+\.[^\s@]+$`. */
  lemma ValidateFormDataSpec(name: Option<string>, email: Option<string>, message: Option<string>)
    ensures ValidateFormData(name, email, message) <==>
      && name.Some? && name.value != ""
      && email.Some? && message.Some? && message.value != ""
      && FormPattern(email.value)
  {
    if email.Some? {
      FormEmailOkIff(email.value);
    }
  }

  /** The body `handleFormSubmit` posts: the fields as entered, without trimming, and the
      subject or `''`. */
  datatype ContactBody = ContactBody(name: string, email: string, subject: string, message: string)

  /** `handleFormSubmit` up to the request: nothing is sent unless `validateFormData` accepts the
      fields, and then the body carries them as entered. */
  function FormRequest(name: Option<string>, email: Option<string>, subject: Option<string>,
                       message: Option<string>): (r: Option<ContactBody>)
  {
    if !ValidateFormData(name, email, message) then None
    else Some(ContactBody(name.value, email.value, if subject.Some? then subject.value else "", message.value))
  }

  lemma FormRequestSpec(name: Option<string>, email: Option<string>, subject: Option<string>,
                        message: Option<string>)
    ensures var r := FormRequest(name, email, subject, message);
      && (r.Some? <==> ValidateFormData(name, email, message))
      && (r.Some? ==> r.value.name == name.value && r.value.email == email.value
                      && r.value.message == message.value
                      && r.value.name != "" && r.value.message != "" && FormPattern(r.value.email))
      && (r.Some? && subject.None? ==> r.value.subject == "")
      && (r.Some? && subject.Some? ==> r.value.subject == subject.value)
  {
    ValidateFormDataSpec(name, email, message);
  }

  /** The parsed body of the answer (`success` truthiness and `message`), or a body that is not
      JSON. */
  datatype Reply = Json(success: bool, message: Option<string>) | NotJson

  /** What `fetch` produced: no answer (the rejection's message), or an answer. */
  datatype Answer = Unreachable(error: string) | Answered(ok: bool, status: int, reply: Reply)

  datatype Toast = Success(text: string) | Error(text: string)

  /** The toast shown and whether the form is reset. */
  datatype Outcome = Outcome(toast: Toast, reset: bool)

  function OrElse(m: Option<string>, fallback: string): (r: string)
    ensures fallback != "" ==> r != ""
    ensures m.Some? && m.value != "" ==> r == m.value
  {
    if m.Some? && m.value != "" then m.value else fallback
  }

  const ParseFailure := "Error processing server response"

  /** `handleFormSubmit` after the request. A body that is not JSON becomes
      `{success: false, message: ParseFailure}`; a non-OK status is thrown with the message and
      shown by the catch; otherwise `success` decides. */
  function SubmitOutcome(answer: Answer): Outcome {
    match answer
    case Unreachable(e) => Outcome(Error(OrElse(Some(e), "Failed to send message. Please try again later.")), false)
    case Answered(ok, status, reply) =>
      var (success, message) := match reply
        case Json(s, m) => (s, m)
        case NotJson => (false, Some(ParseFailure));
      if !ok then Outcome(Error(OrElse(message, "Server error (" + IntToDecimal(status) + ")")), false)
      else if success then Outcome(Success(OrElse(message, "Message sent successfully!")), true)
      else Outcome(Error(OrElse(message, "Failed to send message")), false)
  }

  /** The form is reset exactly when a success toast is shown; a failed status or a body that is
      not JSON is never a success, and a body that is not JSON always shows `ParseFailure`; a
      JSON answer succeeds exactly when the status is OK and `success` holds; every toast has
      text. */
  lemma SubmitOutcomeSpec(answer: Answer)
    ensures var o := SubmitOutcome(answer);
      && (o.reset <==> o.toast.Success?)
      && o.toast.text != ""
      && (answer.Unreachable? ==> o.toast.Error?)
      && (answer.Answered? && !answer.ok ==> o.toast.Error?)
      && (answer.Answered? && answer.reply.NotJson? ==> o.toast == Error(ParseFailure))
      && (answer.Answered? && answer.reply.Json? ==>
            (o.toast.Success? <==> answer.ok && answer.reply.success))
  {
  }

  // ---------------------------------------------------------------- themes

  const Themes: seq<string> := ["blue", "black"]

  /** `themes.indexOf(t)`. */
  function ThemeIndex(t: string): int {
    if t == "blue" then 0 else if t == "black" then 1 else -1
  }

  lemma ThemeIndexSpec(t: string)
    ensures ThemeIndex(t) == -1 <==> t !in Themes
    ensures ThemeIndex(t) != -1 ==> 0 <= ThemeIndex(t) < |Themes| && Themes[ThemeIndex(t)] == t
  {
  }

  /** `loadSavedTheme`: only a known saved theme is kept. */
  function LoadSavedTheme(saved: Option<string>): string {
    if saved.Some? && saved.value != "" && saved.value in Themes then saved.value else "blue"
  }

  /** The theme button: `themes[(themes.indexOf(t) + 1) % themes.length]`. */
  function NextTheme(t: string): string {
    Themes[(ThemeIndex(t) + 1) % |Themes|]
  }

  /** Loaded themes are known; the button alternates between the two; an unknown theme
      becomes `blue`. */
  lemma ThemeCycle(saved: Option<string>, t: string)
    ensures LoadSavedTheme(saved) in Themes
    ensures saved.Some? && saved.value in Themes ==> LoadSavedTheme(saved) == saved.value
    ensures t in Themes ==> NextTheme(t) in Themes && NextTheme(t) != t && NextTheme(NextTheme(t)) == t
    ensures t !in Themes ==> NextTheme(t) == "blue"
  {
  }

  // ---------------------------------------------------------------- the page's state

  /** The fields of `APP_STATE` that handlers change, the saved theme, and how many times
      `initializeApp` has run its body. */
  class App {
    var initialized: bool
    var activeTheme: string
    var savedTheme: Option<string>
    var isMobileMenuOpen: bool
    ghost var bodyRuns: nat

    ghost predicate Valid()
      reads this
    {
      bodyRuns <= 1 && (initialized <==> bodyRuns == 1)
    }

    constructor (saved: Option<string>)
      ensures Valid() && !initialized && activeTheme == "blue" && savedTheme == saved && !isMobileMenuOpen
    {
      initialized, activeTheme, savedTheme, isMobileMenuOpen := false, "blue", saved, false;
      bodyRuns := 0;
    }

    /** `initializeApp`: the body (loading the saved theme among others) runs only once. */
    method InitializeApp()
      requires Valid()
      modifies this
      ensures Valid() && initialized && bodyRuns == 1
      ensures old(initialized) ==> activeTheme == old(activeTheme)
      ensures !old(initialized) ==> activeTheme == LoadSavedTheme(savedTheme)
      ensures savedTheme == old(savedTheme) && isMobileMenuOpen == old(isMobileMenuOpen)
    {
      if initialized {
        return;
      }
      activeTheme := LoadSavedTheme(savedTheme);
      bodyRuns := bodyRuns + 1;
      initialized := true;
    }

    /** The theme button: switch to the next theme, save it, and close the mobile menu if it
        is open. */
    method ToggleTheme()
      modifies this
      ensures activeTheme == NextTheme(old(activeTheme)) && savedTheme == Some(activeTheme)
      ensures !isMobileMenuOpen
      ensures initialized == old(initialized) && bodyRuns == old(bodyRuns)
    {
      var currentIndex := ThemeIndex(activeTheme);
      var nextIndex := (currentIndex + 1) % |Themes|;
      activeTheme := Themes[nextIndex];
      savedTheme := Some(activeTheme);
      if isMobileMenuOpen {
        isMobileMenuOpen := false;
      }
    }

    method OpenMobileMenu()
      modifies this
      ensures isMobileMenuOpen
      ensures activeTheme == old(activeTheme) && savedTheme == old(savedTheme)
      ensures initialized == old(initialized) && bodyRuns == old(bodyRuns)
    {
      isMobileMenuOpen := true;
    }

    method CloseMobileMenu()
      modifies this
      ensures !isMobileMenuOpen
      ensures activeTheme == old(activeTheme) && savedTheme == old(savedTheme)
      ensures initialized == old(initialized) && bodyRuns == old(bodyRuns)
    {
      isMobileMenuOpen := false;
    }

    /** The menu button: close an open menu, open a closed one. */
    method ToggleMobileMenu()
      modifies this
      ensures isMobileMenuOpen == !old(isMobileMenuOpen)
      ensures activeTheme == old(activeTheme) && savedTheme == old(savedTheme)
      ensures initialized == old(initialized) && bodyRuns == old(bodyRuns)
    {
      if isMobileMenuOpen {
        CloseMobileMenu();
      } else {
        OpenMobileMenu();
      }
    }
  }

  // ---------------------------------------------------------------- mouse trail

  const MaxParticles := 50

  datatype Particle = Particle(x: int, y: int)

  /** The trail of `setupMouseTrailParticles`. */
  class MouseTrail {
    var particles: seq<Particle>

    constructor ()
      ensures particles == []
    {
      particles := [];
    }

    /** A mousemove; `spawn` is the outcome of the `Math.random() > 0.7` draw. A particle is
        added only below the limit, so the removal after it never applies. */
    method OnMouseMove(spawn: bool, x: int, y: int)
      requires |particles| <= MaxParticles
      modifies this
      ensures |particles| <= MaxParticles
      ensures spawn && |old(particles)| < MaxParticles ==> particles == old(particles) + [Particle(x, y)]
      ensures !(spawn && |old(particles)| < MaxParticles) ==> particles == old(particles)
    {
      if spawn && |particles| < MaxParticles {
        particles := particles + [Particle(x, y)];
        if |particles| > MaxParticles {
          // The source drops the oldest particle here; the guard above makes this unreachable.
          assert false;
        }
      }
    }
  }
}
