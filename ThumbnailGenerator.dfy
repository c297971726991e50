/**
 * `generateThumbnail` of src/thumbnailGenerator.js: the two-pass viewport sizing
 * protocol, over the abstract browser of module Browser.
 */
module ThumbnailGenerator {
  import opened Wrappers
  import opened Paths
  import opened Config
  import opened Browser

  /** The bound on the extra network-idle wait, in milliseconds. */
  const NetworkIdleTimeoutMs := 5000

  /** The calls of the `try` block after `puppeteer.launch`, for a page that measures `h`. */
  function CapturePlan(html: string, out: Path, cfg: Settings, h: Heights): (plan: seq<Call>)
    ensures |plan| == 8
    ensures plan[1] == SetViewport(Viewport(cfg.thumbnailWidth, cfg.minThumbnailHeight, 1))
    ensures plan[5].SetViewport? && plan[5].viewport.width == cfg.thumbnailWidth
    ensures plan[5].viewport.deviceScaleFactor == plan[1].viewport.deviceScaleFactor
    ensures var height := plan[5].viewport.height;
      && height >= cfg.minThumbnailHeight && height >= h.document && height >= h.body
      && (height == cfg.minThumbnailHeight || height == h.document || height == h.body)
    ensures plan[0] == NewPage && plan[2] == SetContent(html) && plan[4] == Evaluate(MaxScrollHeight)
    ensures plan[3] == WaitForNetworkIdle(Some(NetworkIdleTimeoutMs))
    ensures plan[6] == Screenshot(Shot(out, cfg.thumbnailFormat, Some(cfg.thumbnailQuality), false))
    ensures plan[7] == Stat(out)
    ensures forall i | 0 <= i < |plan| :: plan[i].WaitForNetworkIdle? <==> i == 3
    ensures Close !in plan
  {
    var contentHeight := Evaluated(MaxScrollHeight, h);
    var finalHeight := Max(contentHeight, cfg.minThumbnailHeight);
    [ NewPage,
      SetViewport(Viewport(cfg.thumbnailWidth, cfg.minThumbnailHeight, 1)),
      SetContent(html),
      WaitForNetworkIdle(Some(NetworkIdleTimeoutMs)),
      Evaluate(MaxScrollHeight),
      SetViewport(Viewport(cfg.thumbnailWidth, finalHeight, 1)),
      Screenshot(Shot(out, cfg.thumbnailFormat, Some(cfg.thumbnailQuality), false)),
      Stat(out) ]
  }

  /**
   * The `try`/`catch`/`finally` after a successful `puppeteer.launch`, from call
   * index `k`: the planned calls, the error logged when one threw, then
   * `browser.close()`, whose own failure takes precedence.
   */
  function Session(plan: seq<Call>, out: Path, failing: set<nat>, k: nat): Run {
    var x := Execute(plan, failing, k, true);
    var caught := if x.failed.Some? then [ErrorLogged] else [];
    Run(x.events + caught + [Called(Close)], Finally(x.next !in failing, x.failed, Returned(Some(out))))
  }

  /**
   * One invocation with `plan` as its `try` block, from call index `k` of the
   * host: the empty-content guard, `fs.ensureDir` outside the `try`, then the
   * launch and the session.
   */
  function Invoke(html: string, out: Path, plan: seq<Call>, failing: set<nat>, k: nat): Run {
    var mkdir := EnsureDir(Dirname(out));
    if html == [] then Run([ErrorLogged], Threw(EmptyContent))
    else if k in failing then Run([Called(mkdir)], Threw(CallFailed(mkdir)))
    else if k + 1 in failing then Run([Called(mkdir), Called(Launch), ErrorLogged], Threw(CallFailed(Launch)))
    else
      var session := Session(plan, out, failing, k + 2);
      Run([Called(mkdir), Called(Launch)] + session.events, session.outcome)
  }

  /** `generateThumbnail(html, out)` on a host whose pages measure `measure(html)`. */
  function Capture(html: string, out: Path, cfg: Settings, failing: set<nat>, measure: string -> Heights, k: nat): Run {
    Invoke(html, out, CapturePlan(html, out, cfg, measure(html)), failing, k)
  }

  /** `plan` is the block `CapturePlan(html, out, cfg, h)` that the methods below carry out. */
  ghost predicate IsCapturePlan(plan: seq<Call>, html: string, out: Path, cfg: Settings, h: Heights) {
    plan == CapturePlan(html, out, cfg, h)
  }

  /**
   * The first half of the `try` block: open a page at the probe viewport, load the
   * content, wait (boundedly) for the network and measure the content's height.
   */
  method Prepare(host: Host, html: string, outputPath: Path, cfg: Settings, ghost plan: seq<Call>, ghost x: Exec)
    returns (failed: Option<Call>, contentHeight: int, ghost done: seq<Event>)
    requires IsCapturePlan(plan, html, outputPath, cfg, host.measure(html))
    requires x == Execute(plan, host.failing, host.calls, true)
    modifies host
    ensures failed.Some? ==> host.log == old(host.log) + x.events && failed == x.failed && host.calls == x.next
    ensures failed.None? ==> host.log == old(host.log) + done && Pending(x, plan, 5, done, host.failing, host.calls, true)
    ensures failed.None? ==> contentHeight == Evaluated(MaxScrollHeight, host.measure(html))
  {
    ghost var before := host.log;
    assert plan[0..] == plan;
    failed, done := OpenPage(host, html, cfg, plan, x, true, before);
    contentHeight := 0;
    if failed.None? {
      failed, contentHeight, done := Measure(host, html, outputPath, cfg, plan, x, before, done);
    }
  }

  /**
   * Open a page at the probe viewport and load the content: calls 0 to 2 of the
   * block, the same in both generators.
   */
  method OpenPage(host: Host, html: string, cfg: Settings, ghost plan: seq<Call>, ghost x: Exec, ghost swallowIdle: bool, ghost before: seq<Event>)
    returns (failed: Option<Call>, ghost done: seq<Event>)
    requires |plan| >= 3 && plan[0] == NewPage && plan[1] == SetViewport(Viewport(cfg.thumbnailWidth, cfg.minThumbnailHeight, 1))
    requires plan[2] == SetContent(html)
    requires host.log == before && Pending(x, plan, 0, [], host.failing, host.calls, swallowIdle)
    modifies host
    ensures failed.Some? ==> host.log == before + x.events && failed == x.failed && host.calls == x.next
    ensures failed.None? ==> host.log == before + done && Pending(x, plan, 3, done, host.failing, host.calls, swallowIdle)
    ensures failed.None? ==> host.content == html
  {
    done := [];
    var ok;
    ok, done := Await(host, NewPage, x, plan, swallowIdle, 0, before, done);
    if !ok { return Some(NewPage), done; }
    var probe := Viewport(cfg.thumbnailWidth, cfg.minThumbnailHeight, 1);
    ok, done := Await(host, SetViewport(probe), x, plan, swallowIdle, 1, before, done);
    if !ok { return Some(SetViewport(probe)), done; }
    ok, done := Await(host, SetContent(html), x, plan, swallowIdle, 2, before, done);
    if !ok { return Some(SetContent(html)), done; }
    failed := None;
  }

  /** Wait (boundedly) for the network, warning on a timeout, and measure the content: calls 3 and 4. */
  method Measure(host: Host, html: string, outputPath: Path, cfg: Settings, ghost plan: seq<Call>, ghost x: Exec,
                 ghost before: seq<Event>, ghost done: seq<Event>)
    returns (failed: Option<Call>, contentHeight: int, ghost done': seq<Event>)
    requires IsCapturePlan(plan, html, outputPath, cfg, host.measure(html))
    requires host.log == before + done && Pending(x, plan, 3, done, host.failing, host.calls, true)
    requires host.content == html
    modifies host
    ensures failed.Some? ==> host.log == before + x.events && failed == x.failed && host.calls == x.next
    ensures failed.None? ==> host.log == before + done' && Pending(x, plan, 5, done', host.failing, host.calls, true)
    ensures failed.None? ==> contentHeight == Evaluated(MaxScrollHeight, host.measure(html))
  {
    var ok;
    ok, done' := Await(host, WaitForNetworkIdle(Some(NetworkIdleTimeoutMs)), x, plan, true, 3, before, done);
    if !ok {
      host.log := host.log + [Warned];
    }
    ok, contentHeight, done' := AwaitEvaluate(host, MaxScrollHeight, x, plan, true, 4, before, done');
    if !ok { return Some(Evaluate(MaxScrollHeight)), contentHeight, done'; }
    failed := None;
  }

  /**
   * The second half: resize the viewport to the content (never below the minimum
   * height), take the screenshot and check that the file exists.
   */
  method Render(host: Host, html: string, outputPath: Path, cfg: Settings, contentHeight: int,
                ghost plan: seq<Call>, ghost x: Exec, ghost before: seq<Event>, ghost done: seq<Event>)
    returns (failed: Option<Call>)
    requires IsCapturePlan(plan, html, outputPath, cfg, host.measure(html))
    requires contentHeight == Evaluated(MaxScrollHeight, host.measure(html))
    requires host.log == before + done && Pending(x, plan, 5, done, host.failing, host.calls, true)
    modifies host
    ensures host.log == before + x.events && failed == x.failed && host.calls == x.next
  {
    var finalHeight := Max(contentHeight, cfg.minThumbnailHeight);
    var fit := Viewport(cfg.thumbnailWidth, finalHeight, 1);
    var ok;
    ghost var d := done;
    ok, d := Await(host, SetViewport(fit), x, plan, true, 5, before, d);
    if !ok { return Some(SetViewport(fit)); }
    var shot := Shot(outputPath, cfg.thumbnailFormat, Some(cfg.thumbnailQuality), false);
    ok, d := Await(host, Screenshot(shot), x, plan, true, 6, before, d);
    if !ok { return Some(Screenshot(shot)); }
    ok, d := Await(host, Stat(outputPath), x, plan, true, 7, before, d);
    if !ok { return Some(Stat(outputPath)); }
    PendingNothing(x, plan, d, host.failing, host.calls, true);
    failed := None;
  }

  /** The session after a successful launch: the `try` block, the `catch` and the `finally`. */
  method RunSession(host: Host, html: string, outputPath: Path, cfg: Settings) returns (res: Outcome)
    modifies host
    ensures var run := Session(CapturePlan(html, outputPath, cfg, host.measure(html)), outputPath, host.failing, old(host.calls));
      host.log == old(host.log) + run.events && res == run.outcome
  {
    ghost var plan := CapturePlan(html, outputPath, cfg, host.measure(html));
    ghost var x := Execute(plan, host.failing, host.calls, true);
    ghost var before := host.log;
    var failed, contentHeight, done := Prepare(host, html, outputPath, cfg, plan, x);
    if failed.None? {
      failed := Render(host, html, outputPath, cfg, contentHeight, plan, x, before, done);
    }
    assert host.log == before + x.events && failed == x.failed && host.calls == x.next;
    if failed.Some? {
      host.log := host.log + [ErrorLogged];
    }
    var closed := host.Perform(Close);
    res := Finally(closed, failed, Returned(Some(outputPath)));
  }

  /** `generateThumbnail(htmlContent, outputPath)`. */
  method GenerateThumbnail(host: Host, html: string, outputPath: Path, cfg: Settings) returns (res: Outcome)
    modifies host
    ensures var run := Capture(html, outputPath, cfg, host.failing, host.measure, old(host.calls));
      host.log == old(host.log) + run.events && res == run.outcome
  {
    if html == [] {
      host.log := host.log + [ErrorLogged];
      return Threw(EmptyContent);
    }
    var ok := host.Perform(EnsureDir(Dirname(outputPath)));
    if !ok {
      return Threw(CallFailed(EnsureDir(Dirname(outputPath))));
    }
    ok := host.Perform(Launch);
    if !ok {
      host.log := host.log + [ErrorLogged];
      return Threw(CallFailed(Launch));
    }
    res := RunSession(host, html, outputPath, cfg);
  }

  // ---------------------------------------------------------------------------
  // What an invocation does, whatever fails
  // ---------------------------------------------------------------------------

  /** The session logs the block's calls and then `Close`, and logs an error exactly when the block threw. */
  lemma SessionLog(plan: seq<Call>, out: Path, failing: set<nat>, k: nat)
    ensures var x := Execute(plan, failing, k, true);
      var run := Session(plan, out, failing, k);
      && CallsOf(run.events) == CallsOf(x.events) + [Close]
      && (ErrorLogged in run.events <==> x.failed.Some?)
  {
    var x := Execute(plan, failing, k, true);
    var caught := if x.failed.Some? then [ErrorLogged] else [];
    CallsOfAppend(x.events + caught, [Called(Close)]);
    CallsOfAppend(x.events, caught);
    ExecuteLogsOnlyPlannedCalls(plan, failing, k, true);
    assert CallsOf(caught) == [];
    assert CallsOf([Called(Close)]) == [Close];
  }

  /** What each branch of `Invoke` logs, in terms of the block's own run. */
  lemma InvokeLog(html: string, out: Path, plan: seq<Call>, failing: set<nat>, k: nat)
    ensures var run := Invoke(html, out, plan, failing, k);
      var calls := CallsOf(run.events);
      var mkdir := EnsureDir(Dirname(out));
      var x := Execute(plan, failing, k + 2, true);
      && (html == [] ==> calls == [] && ErrorLogged in run.events)
      && (html != [] && k in failing ==> calls == [mkdir] && ErrorLogged !in run.events)
      && (html != [] && k !in failing && k + 1 in failing ==> calls == [mkdir, Launch] && ErrorLogged in run.events)
      && (html != [] && k !in failing && k + 1 !in failing ==>
            && calls == [mkdir, Launch] + CallsOf(x.events) + [Close]
            && (ErrorLogged in run.events <==> x.failed.Some?))
  {
    var mkdir := EnsureDir(Dirname(out));
    var run := Invoke(html, out, plan, failing, k);
    if html == [] {
      assert CallsOf([ErrorLogged]) == [];
    } else if k in failing {
      assert CallsOf([Called(mkdir)]) == [mkdir];
    } else if k + 1 in failing {
      CallsOfAppend([Called(mkdir), Called(Launch)], [ErrorLogged]);
      assert [Called(mkdir), Called(Launch)] + [ErrorLogged] == run.events;
      assert CallsOf([ErrorLogged]) == [];
    } else {
      LaunchedLog(html, out, plan, failing, k);
      SessionLog(plan, out, failing, k + 2);
    }
  }

  /** The launched branch of `InvokeLog`: `mkdir`, `Launch`, then what the session logs. */
  lemma LaunchedLog(html: string, out: Path, plan: seq<Call>, failing: set<nat>, k: nat)
    requires html != [] && k !in failing && k + 1 !in failing
    ensures var run := Invoke(html, out, plan, failing, k);
      var session := Session(plan, out, failing, k + 2);
      && CallsOf(run.events) == [EnsureDir(Dirname(out)), Launch] + CallsOf(session.events)
      && (ErrorLogged in run.events <==> ErrorLogged in session.events)
  {
    var session := Session(plan, out, failing, k + 2);
    CallsOfAppend([Called(EnsureDir(Dirname(out))), Called(Launch)], session.events);
  }

  /**
   * Calls are made in the order of the source, and the browser is closed exactly
   * when it was launched, as the very last call.
   */
  lemma {:induction false} InvokeCallOrder(html: string, out: Path, plan: seq<Call>, failing: set<nat>, k: nat)
    requires Close !in plan
    ensures var calls := CallsOf(Invoke(html, out, plan, failing, k).events);
      var mkdir := EnsureDir(Dirname(out));
      var launched := html != [] && k !in failing && k + 1 !in failing;
      && (html == [] ==> calls == [])
      && (html != [] && k in failing ==> calls == [mkdir])
      && (html != [] && k !in failing && k + 1 in failing ==> calls == [mkdir, Launch])
      && (launched ==>
            && |calls| >= 3 && calls[..2] == [mkdir, Launch] && calls[|calls| - 1] == Close
            && calls[2..|calls| - 1] <= plan
            && Close !in calls[..|calls| - 1])
      && (Close in calls <==> launched)
  {
    InvokeLog(html, out, plan, failing, k);
    if html != [] && k !in failing && k + 1 !in failing {
      var x := Execute(plan, failing, k + 2, true);
      ExecuteFollowsPlan(plan, failing, k + 2, true);
      LaunchedCallOrder(CallsOf(Invoke(html, out, plan, failing, k).events), EnsureDir(Dirname(out)), CallsOf(x.events), plan);
    }
  }

  /** The calls of a launched invocation, `mkdir`, `Launch`, a prefix of the block, then `Close`, close only at the end. */
  lemma LaunchedCallOrder(calls: seq<Call>, mkdir: Call, made: seq<Call>, plan: seq<Call>)
    requires calls == [mkdir, Launch] + made + [Close]
    requires made <= plan && Close !in plan && mkdir != Close
    ensures |calls| >= 3 && calls[..2] == [mkdir, Launch] && calls[|calls| - 1] == Close
    ensures calls[2..|calls| - 1] == made
    ensures Close !in calls[..|calls| - 1]
  {
    assert calls[2..|calls| - 1] == made;
    assert calls[..|calls| - 1] == [mkdir, Launch] + made;
    assert forall c | c in made :: c in plan;
  }

  /**
   * With the network-idle wait at position 3 of the block (call index `k + 5`):
   * once the run gets that far, whether the wait times out changes neither the
   * calls made, nor whether an error is logged, nor how the invocation settles.
   */
  lemma {:induction false} InvokeIdleTimeoutIsSwallowed(html: string, out: Path, plan: seq<Call>, failing: set<nat>, k: nat)
    requires |plan| > 3 && plan[3].WaitForNetworkIdle?
    requires html != []
    requires k !in failing && k + 1 !in failing && k + 2 !in failing && k + 3 !in failing && k + 4 !in failing
    ensures var withTimeout := Invoke(html, out, plan, failing + {k + 5}, k);
      var withoutTimeout := Invoke(html, out, plan, failing - {k + 5}, k);
      && withTimeout.outcome == withoutTimeout.outcome
      && CallsOf(withTimeout.events) == CallsOf(withoutTimeout.events)
      && (ErrorLogged in withTimeout.events <==> ErrorLogged in withoutTimeout.events)
  {
    var fa, fb := failing + {k + 5}, failing - {k + 5};
    var a := Execute(plan, fa, k + 2, true);
    IdleFailureIsSwallowed(plan, failing, k + 2, 3);
    ExecuteFollowsPlan(plan, fa, k + 2, true);
    assert a.next != k + 5;
    InvokeLog(html, out, plan, fa, k);
    InvokeLog(html, out, plan, fb, k);
  }

  /**
   * With the wait at position 3 and no other wait in the block, a warning is
   * logged exactly when the content is non-empty, every call before the wait
   * succeeded and the wait timed out.
   */
  lemma InvokeWarnsOnIdleTimeout(html: string, out: Path, plan: seq<Call>, failing: set<nat>, k: nat)
    requires |plan| == 8 && forall i | 0 <= i < |plan| :: plan[i].WaitForNetworkIdle? <==> i == 3
    ensures Warned in Invoke(html, out, plan, failing, k).events <==>
      html != [] && (forall n | k <= n < k + 5 :: n !in failing) && k + 5 in failing
  {
    var run := Invoke(html, out, plan, failing, k);
    var mkdir := EnsureDir(Dirname(out));
    if html == [] || k in failing || k + 1 in failing {
      assert Warned !in run.events;
    } else {
      var x := Execute(plan, failing, k + 2, true);
      var caught := if x.failed.Some? then [ErrorLogged] else [];
      assert run.events == [Called(mkdir), Called(Launch)] + (x.events + caught + [Called(Close)]);
      assert Warned in run.events <==> Warned in x.events;
      if (forall n | k <= n < k + 5 :: n !in failing) && k + 5 in failing {
        ExecuteWarnsAt(plan, failing, k + 2, 3);
      }
      ExecuteWarnsOnlyOnIdle(plan, failing, k + 2, true);
      if Warned in x.events {
        var j :| 0 <= j < |plan| && plan[j].WaitForNetworkIdle? && (k + 2) + j in failing
          && forall n | k + 2 <= n < (k + 2) + j :: n !in failing;
        assert j == 3;
      }
    }
  }

  /**
   * With the wait at position 3 and no other wait in the block, the invocation
   * resolves with the output path exactly when the content is non-empty and every
   * call succeeds except, possibly, the wait; it then made every planned call and
   * closed the browser, and logged no error.
   */
  lemma {:induction false} InvokeSucceeds(html: string, out: Path, plan: seq<Call>, failing: set<nat>, k: nat)
    requires |plan| == 8 && forall i | 0 <= i < |plan| :: plan[i].WaitForNetworkIdle? <==> i == 3
    ensures var run := Invoke(html, out, plan, failing, k);
      run.outcome == Returned(Some(out)) <==>
        html != [] && k !in failing && k + 1 !in failing && forall n | k + 2 <= n <= k + 10 && n != k + 5 :: n !in failing
    ensures var run := Invoke(html, out, plan, failing, k);
      run.outcome.Returned? ==>
        && run.outcome.value == Some(out)
        && CallsOf(run.events) == [EnsureDir(Dirname(out)), Launch] + plan + [Close]
        && ErrorLogged !in run.events
  {
    InvokeLog(html, out, plan, failing, k);
    if html != [] && k !in failing && k + 1 !in failing {
      var x := Execute(plan, failing, k + 2, true);
      ExecuteCompletes(plan, failing, k + 2, true);
      ExecuteFollowsPlan(plan, failing, k + 2, true);
      assert x.failed.None? <==> forall n | k + 2 <= n < k + 10 && n != k + 5 :: n !in failing;
    }
  }

  /**
   * Every rejection inside the `try` block, and the empty-content rejection, is
   * logged as an error before it propagates, and nothing else is; once launched,
   * a failing `browser.close()` (the last call, at index `k + |calls| - 1`)
   * decides the outcome.
   */
  lemma {:induction false} InvokeFailureIsLogged(html: string, out: Path, plan: seq<Call>, failing: set<nat>, k: nat)
    requires Close !in plan
    ensures var run := Invoke(html, out, plan, failing, k);
      ErrorLogged in run.events ==> run.outcome.Threw?
    ensures var run := Invoke(html, out, plan, failing, k);
      (run.outcome.Threw? && run.outcome.error != CallFailed(EnsureDir(Dirname(out))) && run.outcome.error != CallFailed(Close))
        ==> ErrorLogged in run.events
    ensures var run := Invoke(html, out, plan, failing, k);
      var calls := CallsOf(run.events);
      html != [] && k !in failing && k + 1 !in failing ==>
        (run.outcome == Threw(CallFailed(Close)) <==> k + |calls| - 1 in failing)
  {
    InvokeLog(html, out, plan, failing, k);
    if html != [] && k !in failing && k + 1 !in failing {
      var x := Execute(plan, failing, k + 2, true);
      ExecuteFollowsPlan(plan, failing, k + 2, true);
      assert x.failed.Some? ==> x.failed.value in plan;
    }
  }

  // The same properties of `generateThumbnail` itself.

  lemma CaptureCallOrder(html: string, out: Path, cfg: Settings, failing: set<nat>, measure: string -> Heights, k: nat)
    ensures var calls := CallsOf(Capture(html, out, cfg, failing, measure, k).events);
      var mkdir := EnsureDir(Dirname(out));
      var launched := html != [] && k !in failing && k + 1 !in failing;
      && (html == [] ==> calls == [])
      && (html != [] && k in failing ==> calls == [mkdir])
      && (html != [] && k !in failing && k + 1 in failing ==> calls == [mkdir, Launch])
      && (launched ==>
            && |calls| >= 3 && calls[..2] == [mkdir, Launch] && calls[|calls| - 1] == Close
            && calls[2..|calls| - 1] <= CapturePlan(html, out, cfg, measure(html))
            && Close !in calls[..|calls| - 1])
      && (Close in calls <==> launched)
  {
    InvokeCallOrder(html, out, CapturePlan(html, out, cfg, measure(html)), failing, k);
  }

  lemma CaptureIdleTimeoutIsSwallowed(html: string, out: Path, cfg: Settings, failing: set<nat>, measure: string -> Heights, k: nat)
    requires html != []
    requires k !in failing && k + 1 !in failing && k + 2 !in failing && k + 3 !in failing && k + 4 !in failing
    ensures var withTimeout := Capture(html, out, cfg, failing + {k + 5}, measure, k);
      var withoutTimeout := Capture(html, out, cfg, failing - {k + 5}, measure, k);
      && withTimeout.outcome == withoutTimeout.outcome
      && CallsOf(withTimeout.events) == CallsOf(withoutTimeout.events)
      && (ErrorLogged in withTimeout.events <==> ErrorLogged in withoutTimeout.events)
  {
    InvokeIdleTimeoutIsSwallowed(html, out, CapturePlan(html, out, cfg, measure(html)), failing, k);
  }

  lemma CaptureSucceeds(html: string, out: Path, cfg: Settings, failing: set<nat>, measure: string -> Heights, k: nat)
    ensures var run := Capture(html, out, cfg, failing, measure, k);
      run.outcome == Returned(Some(out)) <==>
        html != [] && k !in failing && k + 1 !in failing && forall n | k + 2 <= n <= k + 10 && n != k + 5 :: n !in failing
    ensures var run := Capture(html, out, cfg, failing, measure, k);
      run.outcome.Returned? ==>
        && run.outcome.value == Some(out)
        && CallsOf(run.events) == [EnsureDir(Dirname(out)), Launch] + CapturePlan(html, out, cfg, measure(html)) + [Close]
        && ErrorLogged !in run.events
  {
    InvokeSucceeds(html, out, CapturePlan(html, out, cfg, measure(html)), failing, k);
  }

  lemma CaptureWarnsOnIdleTimeout(html: string, out: Path, cfg: Settings, failing: set<nat>, measure: string -> Heights, k: nat)
    ensures Warned in Capture(html, out, cfg, failing, measure, k).events <==>
      html != [] && (forall n | k <= n < k + 5 :: n !in failing) && k + 5 in failing
  {
    InvokeWarnsOnIdleTimeout(html, out, CapturePlan(html, out, cfg, measure(html)), failing, k);
  }

  lemma CaptureFailureIsLogged(html: string, out: Path, cfg: Settings, failing: set<nat>, measure: string -> Heights, k: nat)
    ensures var run := Capture(html, out, cfg, failing, measure, k);
      ErrorLogged in run.events ==> run.outcome.Threw?
    ensures var run := Capture(html, out, cfg, failing, measure, k);
      (run.outcome.Threw? && run.outcome.error != CallFailed(EnsureDir(Dirname(out))) && run.outcome.error != CallFailed(Close))
        ==> ErrorLogged in run.events
    ensures var run := Capture(html, out, cfg, failing, measure, k);
      var calls := CallsOf(run.events);
      html != [] && k !in failing && k + 1 !in failing ==>
        (run.outcome == Threw(CallFailed(Close)) <==> k + |calls| - 1 in failing)
  {
    InvokeFailureIsLogged(html, out, CapturePlan(html, out, cfg, measure(html)), failing, k);
  }
}
