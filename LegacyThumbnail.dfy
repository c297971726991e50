/**
 * The local `generateThumbnail` of src/index.js, which `processHTMLFile` uses:
 * a single-pass sizing that takes the document's scroll height as it is, waits
 * for the network with no timeout option (so the library's default timeout
 * applies, and a rejection of the wait is not caught), catches nothing and
 * resolves `undefined`.
 */
module LegacyThumbnail {
  import opened Wrappers
  import opened Paths
  import opened Config
  import opened Browser
  import ThumbnailGenerator

  /** The `try` block up to the screenshot, for a page that measures `h`. */
  function LegacyPlan(html: string, out: Path, cfg: Settings, h: Heights): (plan: seq<Call>)
    ensures |plan| == 7
    ensures plan[1] == SetViewport(Viewport(cfg.thumbnailWidth, cfg.minThumbnailHeight, 1))
    ensures plan[5] == SetViewport(Viewport(cfg.thumbnailWidth, h.document, 1))
    ensures forall i | 0 <= i < |plan| :: plan[i].WaitForNetworkIdle? <==> i == 3
    ensures plan[3].timeoutMs.None?
    ensures Close !in plan && Exists(out) !in plan && Stat(out) !in plan
    ensures forall c | c in plan :: !c.EnsureDir?
  {
    [ NewPage,
      SetViewport(Viewport(cfg.thumbnailWidth, cfg.minThumbnailHeight, 1)),
      SetContent(html),
      WaitForNetworkIdle(None),
      Evaluate(DocumentScrollHeight),
      SetViewport(Viewport(cfg.thumbnailWidth, Evaluated(DocumentScrollHeight, h), 1)),
      Screenshot(Shot(out, "webp", None, false)) ]
  }

  /** What follows a screenshot whose block completed: `fs.exists(out)`, then `fs.stat(out)` only when it exists. */
  function Verify(out: Path, failing: set<nat>, k: nat): Exec {
    var present := k !in failing;
    if !present then Exec([Called(Exists(out))], None, k + 1)
    else if k + 1 in failing then Exec([Called(Exists(out)), Called(Stat(out))], Some(Stat(out)), k + 2)
    else Exec([Called(Exists(out)), Called(Stat(out))], None, k + 2)
  }

  /**
   * The `try`/`finally` after a successful launch, from call index `k`: the
   * planned calls, the existence check when they all succeeded, then
   * `browser.close()`, whose own failure takes precedence. Nothing is caught.
   */
  function LegacySession(plan: seq<Call>, out: Path, failing: set<nat>, k: nat): Run {
    var x := Execute(plan, failing, k, false);
    if x.failed.Some? then
      Run(x.events + [Called(Close)], Finally(x.next !in failing, x.failed, Returned(None)))
    else
      var y := Verify(out, failing, x.next);
      Run(x.events + y.events + [Called(Close)], Finally(y.next !in failing, y.failed, Returned(None)))
  }

  /**
   * One invocation with `plan` as its `try` block, from call index `k`: the
   * empty-content guard, `puppeteer.launch` outside the `try`, then the session.
   */
  function LegacyInvoke(html: string, out: Path, plan: seq<Call>, failing: set<nat>, k: nat): Run {
    if html == [] then Run([ErrorLogged], Threw(EmptyContent))
    else if k in failing then Run([Called(Launch)], Threw(CallFailed(Launch)))
    else
      var session := LegacySession(plan, out, failing, k + 1);
      Run([Called(Launch)] + session.events, session.outcome)
  }

  /** The local `generateThumbnail(html, out)` on a host whose pages measure `measure(html)`. */
  function LegacyCapture(html: string, out: Path, cfg: Settings, failing: set<nat>, measure: string -> Heights, k: nat): Run {
    LegacyInvoke(html, out, LegacyPlan(html, out, cfg, measure(html)), failing, k)
  }

  /** `plan` is the block `LegacyPlan(html, out, cfg, h)` that the methods below carry out. */
  ghost predicate IsLegacyPlan(plan: seq<Call>, html: string, out: Path, cfg: Settings, h: Heights) {
    plan == LegacyPlan(html, out, cfg, h)
  }

  /** Open a page at the probe viewport, load the content, wait for the network and measure the document. */
  method LegacyPrepare(host: Host, html: string, outputPath: Path, cfg: Settings, ghost plan: seq<Call>, ghost x: Exec)
    returns (failed: Option<Call>, contentHeight: int, ghost done: seq<Event>)
    requires IsLegacyPlan(plan, html, outputPath, cfg, host.measure(html))
    requires x == Execute(plan, host.failing, host.calls, false)
    modifies host
    ensures failed.Some? ==> host.log == old(host.log) + x.events && failed == x.failed && host.calls == x.next
    ensures failed.None? ==> host.log == old(host.log) + done && Pending(x, plan, 5, done, host.failing, host.calls, false)
    ensures failed.None? ==> contentHeight == Evaluated(DocumentScrollHeight, host.measure(html))
  {
    ghost var before := host.log;
    assert plan[0..] == plan;
    failed, done := ThumbnailGenerator.OpenPage(host, html, cfg, plan, x, false, before);
    contentHeight := 0;
    if failed.None? {
      failed, contentHeight, done := LegacyMeasure(host, html, outputPath, cfg, plan, x, before, done);
    }
  }

  /**
   * Wait for the network, passing no timeout option (the library's default
   * applies, and a rejection is not caught), and measure the document: calls 3 and 4.
   */
  method LegacyMeasure(host: Host, html: string, outputPath: Path, cfg: Settings, ghost plan: seq<Call>, ghost x: Exec,
                       ghost before: seq<Event>, ghost done: seq<Event>)
    returns (failed: Option<Call>, contentHeight: int, ghost done': seq<Event>)
    requires IsLegacyPlan(plan, html, outputPath, cfg, host.measure(html))
    requires host.log == before + done && Pending(x, plan, 3, done, host.failing, host.calls, false)
    requires host.content == html
    modifies host
    ensures failed.Some? ==> host.log == before + x.events && failed == x.failed && host.calls == x.next
    ensures failed.None? ==> host.log == before + done' && Pending(x, plan, 5, done', host.failing, host.calls, false)
    ensures failed.None? ==> contentHeight == Evaluated(DocumentScrollHeight, host.measure(html))
  {
    var ok;
    ok, done' := Await(host, WaitForNetworkIdle(None), x, plan, false, 3, before, done);
    if !ok { return Some(WaitForNetworkIdle(None)), 0, done'; }
    ok, contentHeight, done' := AwaitEvaluate(host, DocumentScrollHeight, x, plan, false, 4, before, done');
    if !ok { return Some(Evaluate(DocumentScrollHeight)), contentHeight, done'; }
    failed := None;
  }

  /** Resize the viewport to the measured height, whatever it is, and take the screenshot. */
  method LegacyRender(host: Host, html: string, outputPath: Path, cfg: Settings, contentHeight: int,
                      ghost plan: seq<Call>, ghost x: Exec, ghost before: seq<Event>, ghost done: seq<Event>)
    returns (failed: Option<Call>)
    requires IsLegacyPlan(plan, html, outputPath, cfg, host.measure(html))
    requires contentHeight == Evaluated(DocumentScrollHeight, host.measure(html))
    requires host.log == before + done && Pending(x, plan, 5, done, host.failing, host.calls, false)
    modifies host
    ensures host.log == before + x.events && failed == x.failed && host.calls == x.next
  {
    var fit := Viewport(cfg.thumbnailWidth, contentHeight, 1);
    var ok;
    ghost var d := done;
    ok, d := Await(host, SetViewport(fit), x, plan, false, 5, before, d);
    if !ok { return Some(SetViewport(fit)); }
    var shot := Shot(outputPath, "webp", None, false);
    ok, d := Await(host, Screenshot(shot), x, plan, false, 6, before, d);
    if !ok { return Some(Screenshot(shot)); }
    PendingNothing(x, plan, d, host.failing, host.calls, false);
    failed := None;
  }

  /** `fs.exists(outputPath)`, and `fs.stat(outputPath)` when the file is there. */
  method VerifyOutput(host: Host, outputPath: Path) returns (failed: Option<Call>)
    modifies host
    ensures var y := Verify(outputPath, host.failing, old(host.calls));
      host.log == old(host.log) + y.events && failed == y.failed && host.calls == y.next
  {
    var present := host.Perform(Exists(outputPath));
    failed := None;
    if present {
      var ok := host.Perform(Stat(outputPath));
      if !ok {
        failed := Some(Stat(outputPath));
      }
    }
  }

  /** The session after a successful launch: the `try` block and the `finally`. */
  method LegacyRunSession(host: Host, html: string, outputPath: Path, cfg: Settings) returns (res: Outcome)
    modifies host
    ensures var run := LegacySession(LegacyPlan(html, outputPath, cfg, host.measure(html)), outputPath, host.failing, old(host.calls));
      host.log == old(host.log) + run.events && res == run.outcome
  {
    ghost var plan := LegacyPlan(html, outputPath, cfg, host.measure(html));
    ghost var x := Execute(plan, host.failing, host.calls, false);
    ghost var before := host.log;
    var failed, contentHeight, done := LegacyPrepare(host, html, outputPath, cfg, plan, x);
    if failed.None? {
      failed := LegacyRender(host, html, outputPath, cfg, contentHeight, plan, x, before, done);
    }
    assert host.log == before + x.events && failed == x.failed && host.calls == x.next;
    if failed.None? {
      ghost var mid := host.log;
      failed := VerifyOutput(host, outputPath);
      assert host.log == before + (x.events + (host.log[|mid|..]));
    }
    var closed := host.Perform(Close);
    res := Finally(closed, failed, Returned(None));
  }

  /** The local `generateThumbnail(htmlContent, outputPath)` of src/index.js. */
  method LegacyGenerateThumbnail(host: Host, html: string, outputPath: Path, cfg: Settings) returns (res: Outcome)
    modifies host
    ensures var run := LegacyCapture(html, outputPath, cfg, host.failing, host.measure, old(host.calls));
      host.log == old(host.log) + run.events && res == run.outcome
  {
    if html == [] {
      host.log := host.log + [ErrorLogged];
      return Threw(EmptyContent);
    }
    var ok := host.Perform(Launch);
    if !ok {
      return Threw(CallFailed(Launch));
    }
    res := LegacyRunSession(host, html, outputPath, cfg);
  }

  // ---------------------------------------------------------------------------
  // What an invocation does, whatever fails
  // ---------------------------------------------------------------------------

  /** The session logs the block's calls, the existence check when the block completed, then `Close`, and no error. */
  lemma LegacySessionLog(plan: seq<Call>, out: Path, failing: set<nat>, k: nat)
    ensures var x := Execute(plan, failing, k, false);
      var run := LegacySession(plan, out, failing, k);
      && (x.failed.Some? ==> CallsOf(run.events) == CallsOf(x.events) + [Close])
      && (x.failed.None? ==> CallsOf(run.events) == CallsOf(x.events) + CallsOf(Verify(out, failing, x.next).events) + [Close])
      && ErrorLogged !in run.events
  {
    var x := Execute(plan, failing, k, false);
    ExecuteLogsOnlyPlannedCalls(plan, failing, k, false);
    assert CallsOf([Called(Close)]) == [Close];
    if x.failed.Some? {
      CallsOfAppend(x.events, [Called(Close)]);
    } else {
      var y := Verify(out, failing, x.next);
      CallsOfAppend(x.events + y.events, [Called(Close)]);
      CallsOfAppend(x.events, y.events);
    }
  }

  /** A session calls only what its block plans, `fs.exists`, `fs.stat` and `browser.close()`. */
  lemma LegacySessionCallsOnly(plan: seq<Call>, out: Path, failing: set<nat>, k: nat)
    ensures forall c | c in CallsOf(LegacySession(plan, out, failing, k).events) ::
      c in plan || c == Exists(out) || c == Stat(out) || c == Close
  {
    var x := Execute(plan, failing, k, false);
    LegacySessionLog(plan, out, failing, k);
    ExecuteFollowsPlan(plan, failing, k, false);
    if x.failed.None? {
      VerifyCalls(out, failing, x.next);
    }
  }

  /** The calls of the existence check: `Exists`, then `Stat` exactly when the file exists. */
  lemma VerifyCalls(out: Path, failing: set<nat>, k: nat)
    ensures var y := Verify(out, failing, k);
      && CallsOf(y.events) == (if k in failing then [Exists(out)] else [Exists(out), Stat(out)])
      && y.next == k + |CallsOf(y.events)|
      && (y.failed.Some? <==> k !in failing && k + 1 in failing)
  {
    assert CallsOf([Called(Exists(out))]) == [Exists(out)];
    CallsOfAppend([Called(Exists(out))], [Called(Stat(out))]);
    assert CallsOf([Called(Stat(out))]) == [Stat(out)];
    assert [Called(Exists(out)), Called(Stat(out))] == [Called(Exists(out))] + [Called(Stat(out))];
  }

  /** What each branch of `LegacyInvoke` logs, in terms of the block's own run. */
  lemma LegacyInvokeLog(html: string, out: Path, plan: seq<Call>, failing: set<nat>, k: nat)
    ensures var run := LegacyInvoke(html, out, plan, failing, k);
      var calls := CallsOf(run.events);
      var x := Execute(plan, failing, k + 1, false);
      && (html == [] ==> calls == [] && run.events == [ErrorLogged])
      && (html != [] && k in failing ==> calls == [Launch] && ErrorLogged !in run.events)
      && (html != [] && k !in failing ==>
            && ErrorLogged !in run.events
            && (x.failed.Some? ==> calls == [Launch] + CallsOf(x.events) + [Close])
            && (x.failed.None? ==> calls == [Launch] + CallsOf(x.events) + CallsOf(Verify(out, failing, x.next).events) + [Close]))
  {
    if html == [] {
      assert CallsOf([ErrorLogged]) == [];
    } else if k in failing {
      assert CallsOf([Called(Launch)]) == [Launch];
    } else {
      LegacyLaunchedLog(html, out, plan, failing, k);
      LegacySessionLog(plan, out, failing, k + 1);
    }
  }

  /** The launched branch of `LegacyInvokeLog`: `Launch`, then what the session logs. */
  lemma LegacyLaunchedLog(html: string, out: Path, plan: seq<Call>, failing: set<nat>, k: nat)
    requires html != [] && k !in failing
    ensures var run := LegacyInvoke(html, out, plan, failing, k);
      var session := LegacySession(plan, out, failing, k + 1);
      && run.events == [Called(Launch)] + session.events
      && CallsOf(run.events) == [Launch] + CallsOf(session.events)
      && ErrorLogged !in run.events
  {
    var session := LegacySession(plan, out, failing, k + 1);
    LegacySessionLog(plan, out, failing, k + 1);
    CallsOfAppend([Called(Launch)], session.events);
    assert CallsOf([Called(Launch)]) == [Launch];
  }

  /** The local generator catches nothing: it logs an error exactly for empty content. */
  lemma LegacyErrorOnlyForEmptyContent(html: string, out: Path, plan: seq<Call>, failing: set<nat>, k: nat)
    ensures ErrorLogged in LegacyInvoke(html, out, plan, failing, k).events <==> html == []
  {
    LegacyInvokeLog(html, out, plan, failing, k);
  }

  /** A session's only `Close` is its last call. */
  lemma LegacySessionClosesLast(plan: seq<Call>, out: Path, failing: set<nat>, k: nat)
    requires Close !in plan && Exists(out) != Close && Stat(out) != Close
    ensures var calls := CallsOf(LegacySession(plan, out, failing, k).events);
      |calls| >= 1 && calls[|calls| - 1] == Close && Close !in calls[..|calls| - 1]
  {
    var x := Execute(plan, failing, k, false);
    LegacySessionLog(plan, out, failing, k);
    ExecuteLogsOnlyPlannedCalls(plan, failing, k, false);
    ExecuteFollowsPlan(plan, failing, k, false);
    var made := CallsOf(x.events);
    assert Close !in made by {
      assert forall c | c in made :: c in plan;
    }
    var checked := if x.failed.Some? then [] else CallsOf(Verify(out, failing, x.next).events);
    assert Close !in checked by {
      VerifyCalls(out, failing, x.next);
    }
    var calls := CallsOf(LegacySession(plan, out, failing, k).events);
    assert calls == (made + checked) + [Close];
    assert calls[..|calls| - 1] == made + checked;
  }

  /**
   * The local generator makes no output directory, and the browser is closed
   * exactly when it was launched, as the very last call.
   */
  lemma {:induction false} LegacyInvokeCallOrder(html: string, out: Path, plan: seq<Call>, failing: set<nat>, k: nat)
    requires Close !in plan && Exists(out) != Close && Stat(out) != Close
    ensures var calls := CallsOf(LegacyInvoke(html, out, plan, failing, k).events);
      var launched := html != [] && k !in failing;
      && (html == [] ==> calls == [])
      && (html != [] && k in failing ==> calls == [Launch])
      && (launched ==>
            && |calls| >= 2 && calls[0] == Launch && calls[|calls| - 1] == Close
            && Close !in calls[..|calls| - 1])
      && (Close in calls <==> launched)
      && (forall c | c in calls :: c == Launch || c in plan || c == Exists(out) || c == Stat(out) || c == Close)
  {
    if html == [] {
      assert CallsOf([ErrorLogged]) == [];
    } else if k in failing {
      assert CallsOf([Called(Launch)]) == [Launch];
    } else {
      var session := LegacySession(plan, out, failing, k + 1);
      LegacySessionClosesLast(plan, out, failing, k + 1);
      LegacySessionCallsOnly(plan, out, failing, k + 1);
      CallsOfAppend([Called(Launch)], session.events);
      assert CallsOf([Called(Launch)]) == [Launch];
      var rest := CallsOf(session.events);
      var calls := [Launch] + rest;
      assert calls[..|calls| - 1] == [Launch] + rest[..|rest| - 1];
    }
  }

  /**
   * The local generator resolves `undefined`, never the output path; it does so
   * exactly when the content is non-empty, the launch and every call of the
   * block succeed, the `fs.stat` it makes when the file exists succeeds, and
   * the browser closes.
   */
  lemma {:induction false} LegacyInvokeSucceeds(html: string, out: Path, plan: seq<Call>, failing: set<nat>, k: nat)
    ensures var run := LegacyInvoke(html, out, plan, failing, k);
      run.outcome.Returned? ==> run.outcome.value == None
    ensures var run := LegacyInvoke(html, out, plan, failing, k);
      var e := k + 1 + |plan|;  // the index of `fs.exists`
      run.outcome.Returned? <==>
        && html != []
        && (forall n | k <= n < e :: n !in failing)
        && (e !in failing ==> e + 1 !in failing)
        && (if e in failing then e + 1 else e + 2) !in failing
  {
    if html != [] && k !in failing {
      var x := Execute(plan, failing, k + 1, false);
      ExecuteCompletes(plan, failing, k + 1, false);
      ExecuteFollowsPlan(plan, failing, k + 1, false);
    }
  }

  /**
   * Unlike `thumbnailGenerator.js`, a network-idle wait that times out is not
   * swallowed: once the launch and the three calls before the wait succeed, a
   * failing wait (call index `k + 4`) makes the invocation reject with that
   * wait, or with the close, after closing the browser.
   */
  lemma {:induction false} LegacyIdleTimeoutRejects(html: string, out: Path, plan: seq<Call>, failing: set<nat>, k: nat)
    requires |plan| > 3 && plan[3].WaitForNetworkIdle?
    requires html != []
    requires k !in failing && k + 1 !in failing && k + 2 !in failing && k + 3 !in failing && k + 4 in failing
    ensures var run := LegacyInvoke(html, out, plan, failing, k);
      && run.outcome == (if k + 5 in failing then Threw(CallFailed(Close)) else Threw(CallFailed(plan[3])))
      && CallsOf(run.events) == [Launch] + plan[..4] + [Close]
  {
    var x := Execute(plan, failing, k + 1, false);
    ExecuteCompletes(plan, failing, k + 1, false);
    ExecuteFollowsPlan(plan, failing, k + 1, false);
    ExecuteStopsAtFirstFailure(plan, failing, k + 1, false);
    LegacyInvokeLog(html, out, plan, failing, k);
    assert x.failed.Some?;
    assert x.next == k + 5;
    var calls := CallsOf(x.events);
    assert |calls| == 4;
    assert calls == plan[..4] by {
      assert calls <= plan;
    }
  }

  // The same properties of the local `generateThumbnail` itself.

  lemma LegacyCaptureCallOrder(html: string, out: Path, cfg: Settings, failing: set<nat>, measure: string -> Heights, k: nat)
    ensures var run := LegacyCapture(html, out, cfg, failing, measure, k);
      var calls := CallsOf(run.events);
      var launched := html != [] && k !in failing;
      && (ErrorLogged in run.events <==> html == [])
      && (html == [] ==> calls == [])
      && (html != [] && k in failing ==> calls == [Launch])
      && (launched ==>
            && |calls| >= 2 && calls[0] == Launch && calls[|calls| - 1] == Close
            && Close !in calls[..|calls| - 1])
      && (Close in calls <==> launched)
      && (forall c | c in calls :: !c.EnsureDir?)
  {
    LegacyErrorOnlyForEmptyContent(html, out, LegacyPlan(html, out, cfg, measure(html)), failing, k);
    LegacyInvokeCallOrder(html, out, LegacyPlan(html, out, cfg, measure(html)), failing, k);
  }

  lemma LegacyCaptureSucceeds(html: string, out: Path, cfg: Settings, failing: set<nat>, measure: string -> Heights, k: nat)
    ensures var run := LegacyCapture(html, out, cfg, failing, measure, k);
      run.outcome.Returned? ==> run.outcome.value == None
    ensures var run := LegacyCapture(html, out, cfg, failing, measure, k);
      run.outcome.Returned? <==>
        && html != []
        && (forall n | k <= n < k + 8 :: n !in failing)
        && (k + 8 !in failing ==> k + 9 !in failing)
        && (if k + 8 in failing then k + 9 else k + 10) !in failing
  {
    LegacyInvokeSucceeds(html, out, LegacyPlan(html, out, cfg, measure(html)), failing, k);
  }

  lemma LegacyCaptureIdleTimeoutRejects(html: string, out: Path, cfg: Settings, failing: set<nat>, measure: string -> Heights, k: nat)
    requires html != []
    requires k !in failing && k + 1 !in failing && k + 2 !in failing && k + 3 !in failing && k + 4 in failing
    ensures var run := LegacyCapture(html, out, cfg, failing, measure, k);
      && run.outcome == (if k + 5 in failing then Threw(CallFailed(Close)) else Threw(CallFailed(WaitForNetworkIdle(None))))
      && CallsOf(run.events) == [Launch, NewPage, SetViewport(Viewport(cfg.thumbnailWidth, cfg.minThumbnailHeight, 1)),
                                 SetContent(html), WaitForNetworkIdle(None), Close]
  {
    var plan := LegacyPlan(html, out, cfg, measure(html));
    LegacyIdleTimeoutRejects(html, out, plan, failing, k);
    assert [Launch] + plan[..4] + [Close] == [Launch, plan[0], plan[1], plan[2], plan[3], Close];
  }

  /**
   * The local generator sizes the final viewport to the document's scroll height
   * alone, so a document shorter than the minimum height gets a viewport below it,
   * where `thumbnailGenerator.js` never goes below the minimum.
   */
  lemma LegacyViewportCanUndershoot(html: string, out: Path, cfg: Settings, h: Heights)
    requires h.document < cfg.minThumbnailHeight
    ensures LegacyPlan(html, out, cfg, h)[5].viewport.height < cfg.minThumbnailHeight
    ensures ThumbnailGenerator.CapturePlan(html, out, cfg, h)[5].viewport.height >= cfg.minThumbnailHeight
  {
  }
}
