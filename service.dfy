/** The monitoring engine, `PuppeteerService` (src/puppeteer/puppeteer.service.ts):
    the fields `monitoring`, `browser`, `page` and `seenMsgID`, and the
    operations that drive them. Every browser call is replaced by a parameter
    that says how it ends; broadcasts go to a `Gateway` that records them. */
module Monitor {
  import opened Messages
  import opened Extraction
  import opened Dedup
  import opened Session
  import opened PollLoop
  import opened Relay

  /** A browser process started by `puppeteer.launch`. */
  class Browser {
    var closed: bool

    constructor ()
      ensures !closed
    {
      closed := false;
    }
  }

  /** A tab opened with `owner.newPage()`. */
  class Page {
    const owner: Browser
    var closed: bool

    constructor (owner: Browser)
      ensures this.owner == owner && !closed
    {
      this.owner := owner;
      closed := false;
    }
  }

  /** How `puppeteer.launch`, `browser.newPage` and `page.setViewport` end. */
  datatype LaunchScript = LaunchScript(launch: Outcome, newPage: Outcome, viewport: Outcome)

  /** How every awaited step of one `start` ends: the launch, the login flow,
      opening the inbox, and the iterations of the poll loop. */
  datatype StartScript = StartScript(launch: LaunchScript, session: LoginPage, inbox: Outcome, ticks: seq<Tick>)

  /** After `launchBrowser` there is a page to log in with. A browser left
      over from earlier is reused as it is, with or without a page. */
  predicate ReadyForLogin(hadBrowser: bool, hadPage: bool, l: LaunchScript) {
    if hadBrowser then hadPage else l.launch.Pass? && l.newPage.Pass? && l.viewport.Pass?
  }

  /** `start` gets as far as the poll loop. */
  predicate ReachesLoop(hadBrowser: bool, hadPage: bool, env: Env, s: StartScript) {
    ReadyForLogin(hadBrowser, hadPage, s.launch) && LoginPasses(env, s.session) && s.inbox.Pass?
  }

  class PuppeteerService {
    var browser: Browser?
    var page: Page?
    var monitoring: bool
    var seenMsgID: set<string>
    const gateway: Gateway
    const env: Env

    /** A page is only held together with the browser it belongs to, and
        nothing held has been closed. */
    ghost predicate Valid()
      reads this, browser, page
    {
      && (page != null ==> browser != null && page.owner == browser && !page.closed)
      && (browser != null ==> !browser.closed)
    }

    constructor (gateway: Gateway, env: Env)
      ensures Valid() && this.gateway == gateway && this.env == env
      ensures browser == null && page == null && !monitoring && seenMsgID == {}
    {
      this.gateway := gateway;
      this.env := env;
      browser := null;
      page := null;
      monitoring := false;
      seenMsgID := {};
    }

    /** `start`: refuses to re-enter while monitoring; otherwise sets the flag,
        launches, logs in, opens the inbox and runs the poll loop, and clears
        the flag again if any of these throws. A failed start leaves the
        browser and page as the launch left them. */
    method Start(s: StartScript)
      requires Valid()
      modifies this, gateway
      ensures Valid()
      ensures old(monitoring) ==> unchanged(this) && unchanged(gateway)
      ensures !old(monitoring) && old(browser) != null ==> browser == old(browser) && page == old(page)
      ensures !old(monitoring) && old(browser) == null && s.launch.launch.Fail? ==> browser == null && page == null
      ensures !old(monitoring) && old(browser) == null && s.launch.launch.Pass? ==>
                fresh(browser) && (page != null <==> s.launch.newPage.Pass?) && (page != null ==> fresh(page))
      ensures !old(monitoring) && !ReachesLoop(old(browser) != null, old(page) != null, env, s) ==>
                !monitoring && seenMsgID == old(seenMsgID) && gateway.events == old(gateway.events)
      ensures !old(monitoring) && ReachesLoop(old(browser) != null, old(page) != null, env, s) ==>
                && gateway.events == old(gateway.events) + Run(old(seenMsgID), TargetName(env), s.ticks).events
                && seenMsgID == Run(old(seenMsgID), TargetName(env), s.ticks).seen
                && monitoring == !Stopped(s.ticks)
    {
      if monitoring {
        return;
      }
      monitoring := true;

      // One handler catches whatever the four steps throw.
      var r := LaunchBrowser(s.launch);
      var calls, polls;
      if r.Pass? {
        r, calls := Login(s.session);
      }
      if r.Pass? {
        r, calls := OpenMsgPage(s.inbox);
      }
      if r.Pass? {
        r, polls := MonitorMessages(s.ticks);
      }
      if r.Fail? {
        monitoring := false;
      }
    }

    /** `stop`: clears the flag, then closes what it can. */
    method Stop(pageClose: Outcome, browserClose: Outcome)
      requires Valid()
      modifies this`monitoring, this`page, this`browser, page, browser
      ensures Valid() && !monitoring
      ensures old(page) != null && pageClose.Fail? ==>
                page == old(page) && browser == old(browser) && !old(browser).closed
      ensures old(page) == null || pageClose.Pass? ==>
                page == null && (old(page) != null ==> old(page).closed)
      ensures (old(page) == null || pageClose.Pass?) && old(browser) != null && browserClose.Pass? ==>
                browser == null && old(browser).closed
      ensures (old(page) == null || pageClose.Pass?) && old(browser) != null && browserClose.Fail? ==>
                browser == old(browser) && !browser.closed
      ensures old(page) == null && old(browser) == null ==> page == null && browser == null
    {
      monitoring := false;
      CloseBrowser(pageClose, browserClose);
    }

    /** `launchBrowser`: does nothing when a browser is held; otherwise
        launches one and opens a page in it. A failing step leaves what the
        steps before it created. */
    method LaunchBrowser(l: LaunchScript) returns (r: Outcome)
      requires Valid()
      modifies this`browser, this`page
      ensures Valid()
      ensures old(browser) != null ==> r == Pass && browser == old(browser) && page == old(page)
      ensures old(browser) == null && l.launch.Fail? ==> r == l.launch && browser == null && page == null
      ensures old(browser) == null && l.launch.Pass? ==>
                && fresh(browser)
                && (l.newPage.Fail? ==> r == l.newPage && page == null)
                && (l.newPage.Pass? ==> r == l.viewport && fresh(page) && page.owner == browser)
    {
      if browser != null {
        return Pass;
      }
      if l.launch.Fail? {
        return l.launch;
      }
      var b := new Browser();
      browser := b;
      if l.newPage.Fail? {
        return l.newPage;
      }
      page := new Page(b);
      r := l.viewport;
    }

    /** `login`: opens the profile page and runs the login flow exactly when
        the page shows a login link or button. */
    method Login(p: LoginPage) returns (r: Outcome, calls: seq<BrowserCall>)
      ensures page == null ==> r == Fail(PageNotInitialized) && calls == []
      ensures page != null ==> |calls| >= 1 && calls[0] == Goto(ProfileUrl)
      ensures r.Pass? <==> page != null && LoginPasses(env, p)
      ensures page != null && p.profileGoto.Pass? && p.markerBefore == Ok(false) ==> calls == [Goto(ProfileUrl)]
      ensures page != null && p.profileGoto.Pass? && p.markerBefore == Ok(true) ==> |calls| >= 2 && calls[1] == Goto(ProfileUrl)
      ensures forall k :: 0 <= k < |calls| && calls[k].Type? ==> TypesCredential(p, calls[k])
    {
      if page == null {
        return Fail(PageNotInitialized), [];
      }
      calls := [Goto(ProfileUrl)];
      if p.profileGoto.Fail? {
        return p.profileGoto, calls;
      }
      match p.markerBefore
      case Err(f) =>
        r := Fail(f);
      case Ok(markerPresent) =>
        var loggedIn := !markerPresent;
        if !loggedIn {
          var more;
          r, more := PerformLogin(p);
          calls := calls + more;
        } else {
          r := Pass;
        }
    }

    /** `call` types one of the configured credentials into the field chosen
        for it. */
    predicate TypesCredential(p: LoginPage, call: BrowserCall) {
      && CredentialsSet(env)
      && (|| call == Type(LoginField(p), env.login.value, TypingDelayMs)
          || call == Type(PasswordField(p), env.password.value, TypingDelayMs))
    }

    /** `performLogin`: navigates, clicks the trigger if there is one, checks
        the credentials, fills in and submits the form, and fails if the login
        marker is still there afterwards. */
    method PerformLogin(p: LoginPage) returns (r: Outcome, calls: seq<BrowserCall>)
      ensures page == null ==> r == Fail(PageNotInitialized) && calls == []
      ensures page != null ==> |calls| >= 1 && calls[0] == Goto(ProfileUrl)
      ensures r.Pass? <==> page != null && LoginSucceeds(env, p)
      ensures page != null && ReachesCredentialCheck(p) && !CredentialsSet(env) ==>
                r == Fail(MissingCredentials) && calls == [Goto(ProfileUrl)] + TriggerCalls(p)
      ensures page != null && ReachesVerification(env, p) ==>
                calls == [Goto(ProfileUrl)] + TriggerCalls(p) + FillCalls(env, p) + SubmitCalls(p)
      ensures page != null && ReachesVerification(env, p) && p.markerAfter == Ok(true) ==> r == Fail(LoginFailed)
      ensures forall k :: 0 <= k < |calls| && calls[k].Type? ==> TypesCredential(p, calls[k])
    {
      if page == null {
        return Fail(PageNotInitialized), [];
      }
      calls := [Goto(ProfileUrl)];
      if p.loginGoto.Fail? {
        return p.loginGoto, calls;
      }
      if p.triggerPresent {
        calls := calls + [Click(LoginTrigger)];
        if p.triggerClick.Fail? {
          return p.triggerClick, calls;
        }
      }
      if !Truthy(env.login) || !Truthy(env.password) {
        return Fail(MissingCredentials), calls;
      }
      var more;
      r, more := FillAndSubmit(p);
      calls := calls + more;
      if r.Fail? {
        return r, calls;
      }
      match p.markerAfter
      case Err(f) =>
        r := Fail(f);
      case Ok(stillNotLogged) =>
        r := if stillNotLogged then Fail(LoginFailed) else Pass;
    }

    /** The middle of `performLogin`: type the credentials into the fields
        the page offers, then submit with the button or with Enter. */
    method FillAndSubmit(p: LoginPage) returns (r: Outcome, calls: seq<BrowserCall>)
      requires CredentialsSet(env)
      ensures r.Pass? <==> p.fieldWait.Pass? && p.typeLogin.Pass? && p.typePassword.Pass? && SubmitSucceeds(p)
      ensures r.Pass? ==> calls == FillCalls(env, p) + SubmitCalls(p)
      ensures forall k :: 0 <= k < |calls| && calls[k].Type? ==> TypesCredential(p, calls[k])
    {
      var login, password := env.login.value, env.password.value;
      var ls := if p.loginInputPresent then LoginInput else AltLoginInput;
      var ps := if p.passwordInputPresent then PasswordInput else AltPasswordInput;
      calls := [WaitForSelector(ls, FieldWaitMs)];
      if p.fieldWait.Fail? {
        return p.fieldWait, calls;
      }
      calls := calls + [Type(ls, login, TypingDelayMs)];
      if p.typeLogin.Fail? {
        return p.typeLogin, calls;
      }
      calls := calls + [Type(ps, password, TypingDelayMs)];
      if p.typePassword.Fail? {
        return p.typePassword, calls;
      }
      if p.submitPresent {
        calls := calls + [WaitForNavigation, Click(SubmitButton)];
        r := p.submitNav;
      } else {
        calls := calls + [PressKey(EnterKey)];
        if p.enterPress.Fail? {
          return p.enterPress, calls;
        }
        calls := calls + [WaitForNavigation];
        r := p.enterNav;
      }
    }

    /** `openMsgPage`: navigates the held page to the inbox. */
    method OpenMsgPage(inbox: Outcome) returns (r: Outcome, calls: seq<BrowserCall>)
      ensures page == null ==> r == Fail(PageNotInitialized) && calls == []
      ensures page != null ==> r == inbox && calls == [Goto(MessagesUrl)]
    {
      if page == null {
        return Fail(PageNotInitialized), [];
      }
      calls := [Goto(MessagesUrl)];
      r := inbox;
    }

    /** `monitorMessages`: while the flag holds, scrape once and relay the
        fresh messages, or relay one error with code 500 when the scrape
        throws; then go round again. `stop` clears the flag while an
        iteration sleeps. */
    method MonitorMessages(ticks: seq<Tick>) returns (r: Outcome, polls: nat)
      requires Valid()
      modifies this`monitoring, this`seenMsgID, gateway
      ensures Valid()
      ensures page == null ==>
                && r == Fail(PageNotInitialized) && polls == 0 && monitoring == old(monitoring)
                && seenMsgID == old(seenMsgID) && gateway.events == old(gateway.events)
      ensures page != null && !old(monitoring) ==>
                && r == Pass && polls == 0 && !monitoring
                && seenMsgID == old(seenMsgID) && gateway.events == old(gateway.events)
      ensures page != null && old(monitoring) ==>
                && r == Pass && polls == Polls(ticks) && monitoring == !Stopped(ticks)
                && gateway.events == old(gateway.events) + Run(old(seenMsgID), TargetName(env), ticks).events
                && seenMsgID == Run(old(seenMsgID), TargetName(env), ticks).seen
    {
      if page == null {
        return Fail(PageNotInitialized), 0;
      }
      r, polls := Pass, 0;
      ghost var started := monitoring;
      ghost var target := TargetName(env);
      ghost var run := if started then Run(seenMsgID, target, ticks) else Step([], seenMsgID, []);
      ghost var events0 := gateway.events;
      ghost var sent: seq<Event> := [];
      if started {
        TracksStart(target, ticks, seenMsgID);
      }
      while monitoring && polls < |ticks|
        invariant Valid() && page != null
        invariant (polls > 0 ==> started) && (started && !monitoring ==> polls > 0)
        invariant gateway.events == events0 + sent
        invariant Tracks(target, ticks, polls, run, monitoring, seenMsgID, sent)
      {
        sent := Iterate(ticks, polls, run, events0, sent);
        polls := polls + 1;
      }
      TracksEnd(target, ticks, polls, run, monitoring, seenMsgID, sent);
    }

    /** One pass of the loop body: scrape, relay, and let `stop` clear the
        flag while the iteration sleeps. The pass moves the loop one tick
        further along `run`. */
    method Iterate(ticks: seq<Tick>, polls: nat, ghost run: Step, ghost events0: seq<Event>, ghost sent: seq<Event>)
      returns (ghost sent': seq<Event>)
      requires Valid() && page != null && monitoring && polls < |ticks|
      requires gateway.events == events0 + sent
      requires Tracks(TargetName(env), ticks, polls, run, true, seenMsgID, sent)
      modifies this`monitoring, this`seenMsgID, gateway
      ensures gateway.events == events0 + sent'
      ensures Tracks(TargetName(env), ticks, polls + 1, run, monitoring, seenMsgID, sent')
    {
      ghost var step := Poll(seenMsgID, TargetName(env), ticks[polls].scrape);
      TracksStep(TargetName(env), ticks, polls, run, seenMsgID, sent);
      PollOnce(ticks[polls]);
      sent' := sent + step.events;
    }

    /** What one pass of the loop body does, in terms of `Poll`. */
    method PollOnce(tick: Tick)
      requires Valid() && page != null
      modifies this`monitoring, this`seenMsgID, gateway
      ensures gateway.events == old(gateway.events) + Poll(old(seenMsgID), TargetName(env), tick.scrape).events
      ensures seenMsgID == Poll(old(seenMsgID), TargetName(env), tick.scrape).seen
      ensures monitoring == (old(monitoring) && !tick.stopRequested)
    {
      var newMessages := ScrapeNewMessages(tick.scrape);
      Broadcast(newMessages);
      if tick.stopRequested {
        monitoring := false;
      }
    }

    /** The body of one iteration after the scrape: every fresh message is
        sent in order, or the error is sent once with code 500. */
    method Broadcast(batch: Result<seq<MonitoredMessage>>)
      modifies gateway
      ensures gateway.events == old(gateway.events) + Reported(batch)
    {
      match batch
      case Ok(newMessages) =>
        for j := 0 to |newMessages|
          invariant gateway.events == old(gateway.events) + NewMessages(newMessages[..j])
        {
          gateway.SendMessage(newMessages[j]);
          assert NewMessages(newMessages[..j + 1]) == NewMessages(newMessages[..j]) + [NewMessage(newMessages[j])];
        }
        assert newMessages[..|newMessages|] == newMessages;
      case Err(f) =>
        gateway.SendError(ScrapeErrorCode, ReportText(f));
    }

    /** `scrapeNewMessages`: evaluates the extraction callback in the page and
        passes its records through the seen filter, which adds each new id to
        `seenMsgID` and keeps the first record carrying it. */
    method ScrapeNewMessages(scrape: Result<Dom>) returns (r: Result<seq<MonitoredMessage>>)
      modifies this`seenMsgID
      ensures page == null ==> r == Err(PageNotInitialized) && seenMsgID == old(seenMsgID)
      ensures page != null && scrape.Err? ==> r == Err(scrape.fault) && seenMsgID == old(seenMsgID)
      ensures page != null && scrape.Ok? ==>
                && r == Ok(Fresh(old(seenMsgID), Extracted(scrape.value, TargetName(env))))
                && seenMsgID == old(seenMsgID) + Ids(Extracted(scrape.value, TargetName(env)))
    {
      if page == null {
        return Err(PageNotInitialized);
      }
      var targetName := TargetName(env);
      if scrape.Err? {
        return Err(scrape.fault);
      }
      var res := Extract(scrape.value, targetName);
      var newOnes := FilterSeen(res);
      r := Ok(newOnes);
    }

    /** The filter loop of `scrapeNewMessages`: a record whose id is not yet
        in `seenMsgID` is kept and its id added. */
    method FilterSeen(res: seq<Scraped>) returns (newOnes: seq<MonitoredMessage>)
      modifies this`seenMsgID
      ensures newOnes == Fresh(old(seenMsgID), res)
      ensures seenMsgID == old(seenMsgID) + Ids(res)
    {
      newOnes := [];
      for i := 0 to |res|
        invariant seenMsgID == old(seenMsgID) + Ids(res[..i])
        invariant newOnes == Fresh(old(seenMsgID), res[..i])
      {
        var m := res[i];
        var uniqueId := m.id;
        assert res[..i + 1] == res[..i] + [m];
        IdsSnoc(res[..i], m);
        FreshSnoc(old(seenMsgID), res[..i], m);
        if uniqueId !in seenMsgID {
          seenMsgID := seenMsgID + {uniqueId};
          newOnes := newOnes + [MonitoredMessage(m.from, m.body, m.date)];
        }
      }
      assert res[..|res|] == res;
    }

    /** `closeBrowser`: closes the page, then the browser, forgetting each
        once closed. An error is swallowed: a failing page close leaves both
        held and the browser open; a failing browser close leaves it held. */
    method CloseBrowser(pageClose: Outcome, browserClose: Outcome)
      requires Valid()
      modifies this`page, this`browser, page, browser
      ensures Valid()
      ensures old(page) != null && pageClose.Fail? ==>
                page == old(page) && browser == old(browser) && !old(browser).closed
      ensures old(page) == null || pageClose.Pass? ==>
                page == null && (old(page) != null ==> old(page).closed)
      ensures (old(page) == null || pageClose.Pass?) && old(browser) != null && browserClose.Pass? ==>
                browser == null && old(browser).closed
      ensures (old(page) == null || pageClose.Pass?) && old(browser) != null && browserClose.Fail? ==>
                browser == old(browser) && !browser.closed
      ensures old(page) == null && old(browser) == null ==> page == null && browser == null
    {
      if page != null {
        if pageClose.Fail? {
          return;
        }
        page.closed := true;
        page := null;
      }
      if browser != null {
        if browserClose.Fail? {
          return;
        }
        browser.closed := true;
        browser := null;
      }
    }
  }
}
