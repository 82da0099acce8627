/** The login page (client/src/pages/Login.tsx): a password field, an error
    flag, the redirect of an already authenticated visitor, and the submit
    handler wired to the session gate's `login`. */
module LoginPage {

  import opened Strings
  import Session

  /** The form's local state. */
  datatype Form = Form(password: string, error: bool)

  /** What the page does when it renders: redirect home and show nothing, or
      show the form. */
  datatype View = NavigateHome | ShowForm(form: Form)

  /** The state of a freshly opened form: empty field, no error. */
  function InitialForm(): (f: Form)
    ensures f.password == "" && !f.error
  {
    Form("", false)
  }

  /** Rendering: an authenticated visitor is sent to "/" and sees nothing;
      anyone else sees the form as it stands. */
  function Render(ctx: Session.Context, f: Form): (v: View)
    ensures v == NavigateHome <==> ctx.isAuthenticated
    ensures !ctx.isAuthenticated ==> v == ShowForm(f)
  {
    if ctx.isAuthenticated then NavigateHome else ShowForm(f)
  }

  /** The result of submitting: the provider after `login`, the form, and the
      navigation target if any. */
  datatype Submitted = Submitted(provider: Session.Provider, form: Form, navigate: Option<string>)

  /** `handleSubmit`: the typed password goes to `login`; success navigates to
      "/", failure raises the error flag and stays. */
  function Submit(p: Session.Provider, f: Form): (s: Submitted)
    ensures s.navigate == Some("/") <==> f.password == Session.SitePassword
    ensures s.navigate.None? <==> f.password != Session.SitePassword
    ensures s.navigate.None? ==> s.form == Form(f.password, true) && s.provider == p
    ensures s.navigate.Some? ==> s.form == f && s.provider.isAuthenticated
  {
    var (q, ok) := Session.Login(p, f.password);
    if ok then Submitted(q, f, Some("/")) else Submitted(q, Form(f.password, true), None)
  }

  /** The field's `onChange`: the new text replaces the password and the
      error flag is cleared. */
  function Edit(f: Form, text: string): (g: Form)
    ensures g.password == text && !g.error
  {
    Form(text, false)
  }

  // ---- Properties ------------------------------------------------------------

  /** A failed submission shows the error, and the next keystroke clears it. */
  lemma ErrorUntilNextEdit(p: Session.Provider, f: Form, text: string)
    requires f.password != Session.SitePassword
    ensures Submit(p, f).form.error
    ensures !Edit(Submit(p, f).form, text).error
  {
  }

  /** After a successful submission the page, rendered again from the
      provider's new flag, redirects home. */
  lemma SuccessThenRedirect(p: Session.Provider, f: Form)
    requires f.password == Session.SitePassword
    ensures Render(Session.Context(Submit(p, f).provider.isAuthenticated), Submit(p, f).form) == NavigateHome
  {
  }

  /** After a failed submission by a visitor who is not logged in, the form
      is shown again with the error. */
  lemma FailureStaysOnForm(p: Session.Provider, f: Form)
    requires !p.isAuthenticated && f.password != Session.SitePassword
    ensures Render(Session.Context(Submit(p, f).provider.isAuthenticated), Submit(p, f).form)
         == ShowForm(Form(f.password, true))
  {
  }
}
