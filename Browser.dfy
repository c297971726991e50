/**
 * The headless browser and the file system as the thumbnail generators see them:
 * every call either succeeds or fails (rejects), as the environment decides, and
 * is appended to a ghost event log together with what the generator logs.
 */
module Browser {
  import opened Wrappers
  import opened Paths

  datatype Viewport = Viewport(width: int, height: int, deviceScaleFactor: int)

  /** The function handed to `page.evaluate`. */
  datatype PageScript =
    | MaxScrollHeight       // Math.max(documentElement.scrollHeight, body.scrollHeight)
    | DocumentScrollHeight  // documentElement.scrollHeight

  /** The options of `page.screenshot`; `quality` is `None` when the option is not passed. */
  datatype Shot = Shot(path: Path, format: string, quality: Option<int>, fullPage: bool)

  /** One awaited call into the file system or the browser. */
  datatype Call =
    | EnsureDir(dir: Path)
    | Launch
    | NewPage
    | SetViewport(viewport: Viewport)
    | SetContent(html: string)
    | WaitForNetworkIdle(timeoutMs: Option<int>)  // None: the library's default timeout
    | Evaluate(script: PageScript)
    | Screenshot(shot: Shot)
    | Exists(path: Path)
    | Stat(path: Path)
    | Close

  datatype Event = Called(call: Call) | Warned | ErrorLogged

  /** The two scroll heights of a rendered document. */
  datatype Heights = Heights(document: int, body: int)

  function Max(a: int, b: int): (m: int)
    ensures m >= a && m >= b && (m == a || m == b)
  {
    if a >= b then a else b
  }

  /** What the page function returns for a document with heights `h`. */
  function Evaluated(script: PageScript, h: Heights): int {
    match script
    case MaxScrollHeight => Max(h.document, h.body)
    case DocumentScrollHeight => h.document
  }

  /** The calls recorded in a log, in order. */
  function CallsOf(events: seq<Event>): (calls: seq<Call>)
    ensures |calls| <= |events|
  {
    if events == [] then []
    else (if events[0].Called? then [events[0].call] else []) + CallsOf(events[1..])
  }

  lemma {:induction false} CallsOfAppend(a: seq<Event>, b: seq<Event>)
    ensures CallsOf(a + b) == CallsOf(a) + CallsOf(b)
  {
    if a == [] {
      assert a + b == b;
    } else {
      var head := if a[0].Called? then [a[0].call] else [];
      assert (a + b)[0] == a[0] && (a + b)[1..] == a[1..] + b;
      assert CallsOf(a + b) == head + CallsOf(a[1..] + b);
      CallsOfAppend(a[1..], b);
      assert CallsOf(a) == head + CallsOf(a[1..]);
    }
  }

  /**
   * The environment: the n-th call made on this host fails exactly when n is in
   * `failing` (for `Exists`, failing means the path does not exist), and a page
   * whose content is `html` measures `measure(html)`.
   */
  class Host {
    const failing: set<nat>
    const measure: string -> Heights
    var calls: nat
    var content: string
    ghost var log: seq<Event>

    constructor (failing: set<nat>, measure: string -> Heights)
      ensures this.failing == failing && this.measure == measure
      ensures calls == 0 && content == "" && log == []
    {
      this.failing := failing;
      this.measure := measure;
      calls := 0;
      content := "";
      log := [];
    }

    /** Performs `c`; `page.setContent` also replaces the page's content. */
    method Perform(c: Call) returns (ok: bool)
      modifies this
      ensures ok <==> old(calls) !in failing
      ensures calls == old(calls) + 1
      ensures log == old(log) + [Called(c)]
      ensures content == if c.SetContent? then c.html else old(content)
    {
      ok := calls !in failing;
      calls := calls + 1;
      log := log + [Called(c)];
      if c.SetContent? {
        content := c.html;
      }
    }

    /** `page.evaluate(script)`: runs the page function on the current content. */
    method Evaluate(script: PageScript) returns (ok: bool, value: int)
      modifies this
      ensures ok <==> old(calls) !in failing
      ensures calls == old(calls) + 1
      ensures log == old(log) + [Called(Call.Evaluate(script))]
      ensures content == old(content)
      ensures value == Evaluated(script, measure(content))
    {
      ok := calls !in failing;
      value := Evaluated(script, measure(content));
      calls := calls + 1;
      log := log + [Called(Call.Evaluate(script))];
    }
  }

  /** Why a generator rejected. */
  datatype Error = EmptyContent | CallFailed(call: Call)

  /** How a generator settled: resolved with a value (`None` for `undefined`) or rejected. */
  datatype Outcome = Returned(value: Option<Path>) | Threw(error: Error)

  /** Everything one generator invocation logged, and how it settled. */
  datatype Run = Run(events: seq<Event>, outcome: Outcome)

  /**
   * The `finally` block's `await browser.close()`: a rejection there replaces the
   * block's own result or exception; otherwise the first failure is rethrown.
   */
  function Finally(closeOk: bool, failed: Option<Call>, result: Outcome): Outcome {
    if !closeOk then Threw(CallFailed(Close))
    else if failed.Some? then Threw(CallFailed(failed.value))
    else result
  }

  // ---------------------------------------------------------------------------
  // A sequence of awaited calls inside one `try` block
  // ---------------------------------------------------------------------------

  /** The events of a run, the call that threw (if one did) and the index of the next call. */
  datatype Exec = Exec(events: seq<Event>, failed: Option<Call>, next: nat)

  /**
   * Runs `plan` from call index `k`: the first failing call throws and ends the
   * block, except that a failing `waitForNetworkIdle` is caught, logged as a
   * warning and skipped when `swallowIdle` holds.
   */
  function Execute(plan: seq<Call>, failing: set<nat>, k: nat, swallowIdle: bool): Exec
    decreases |plan|
  {
    if plan == [] then Exec([], None, k)
    else if k !in failing then
      var rest := Execute(plan[1..], failing, k + 1, swallowIdle);
      Exec([Called(plan[0])] + rest.events, rest.failed, rest.next)
    else if swallowIdle && plan[0].WaitForNetworkIdle? then
      var rest := Execute(plan[1..], failing, k + 1, swallowIdle);
      Exec([Called(plan[0]), Warned] + rest.events, rest.failed, rest.next)
    else
      Exec([Called(plan[0])], Some(plan[0]), k + 1)
  }

  /** `x`, with `done` logged before it. */
  function Resume(done: seq<Event>, x: Exec): Exec {
    Exec(done + x.events, x.failed, x.next)
  }

  /** A call of the plan that succeeds is logged and the block goes on with the next. */
  lemma StepSucceeds(plan: seq<Call>, failing: set<nat>, k: nat, i: nat, done: seq<Event>, swallowIdle: bool)
    requires i < |plan| && k !in failing
    ensures Resume(done, Execute(plan[i..], failing, k, swallowIdle))
         == Resume(done + [Called(plan[i])], Execute(plan[i + 1..], failing, k + 1, swallowIdle))
  {
    assert plan[i..][1..] == plan[i + 1..];
  }

  /** A failing network-idle wait is logged with a warning and the block goes on. */
  lemma StepWarns(plan: seq<Call>, failing: set<nat>, k: nat, i: nat, done: seq<Event>)
    requires i < |plan| && k in failing && plan[i].WaitForNetworkIdle?
    ensures Resume(done, Execute(plan[i..], failing, k, true))
         == Resume(done + [Called(plan[i]), Warned], Execute(plan[i + 1..], failing, k + 1, true))
  {
    assert plan[i..][1..] == plan[i + 1..];
  }

  /** Any other failing call ends the block with that call as the one that threw. */
  lemma StepThrows(plan: seq<Call>, failing: set<nat>, k: nat, i: nat, done: seq<Event>, swallowIdle: bool)
    requires i < |plan| && k in failing && !(swallowIdle && plan[i].WaitForNetworkIdle?)
    ensures Resume(done, Execute(plan[i..], failing, k, swallowIdle)) == Exec(done + [Called(plan[i])], Some(plan[i]), k + 1)
  {
  }

  /** A first call that does not throw adds itself to the calls of the rest of the block. */
  lemma ExecuteHead(plan: seq<Call>, failing: set<nat>, k: nat, swallowIdle: bool)
    requires plan != [] && (k !in failing || (swallowIdle && plan[0].WaitForNetworkIdle?))
    ensures var x, rest := Execute(plan, failing, k, swallowIdle), Execute(plan[1..], failing, k + 1, swallowIdle);
      && CallsOf(x.events) == [plan[0]] + CallsOf(rest.events)
      && x.failed == rest.failed && x.next == rest.next
  {
    var rest := Execute(plan[1..], failing, k + 1, swallowIdle);
    var head: seq<Event> := if k !in failing then [Called(plan[0])] else [Called(plan[0]), Warned];
    assert CallsOf(head) == [plan[0]] by {
      if k in failing { assert head[1..] == [Warned]; }
    }
    assert Execute(plan, failing, k, swallowIdle) == Exec(head + rest.events, rest.failed, rest.next);
    CallsOfAppend(head, rest.events);
  }

  /** The calls made are a prefix of the plan, each taking one index, and all of it when nothing threw. */
  lemma {:induction false} ExecutePrefix(plan: seq<Call>, failing: set<nat>, k: nat, swallowIdle: bool)
    ensures var x := Execute(plan, failing, k, swallowIdle);
      var calls := CallsOf(x.events);
      && calls <= plan
      && x.next == k + |calls|
      && (x.failed.None? ==> calls == plan)
    decreases |plan|
  {
    if plan == [] {
      return;
    }
    if k in failing && !(swallowIdle && plan[0].WaitForNetworkIdle?) {
      assert CallsOf([Called(plan[0])]) == [plan[0]];
      return;
    }
    ExecutePrefix(plan[1..], failing, k + 1, swallowIdle);
    ExecuteHead(plan, failing, k, swallowIdle);
    assert plan == [plan[0]] + plan[1..];
  }

  /** The call that threw is the last call made, and its index failed. */
  lemma {:induction false} ExecuteThrowsLast(plan: seq<Call>, failing: set<nat>, k: nat, swallowIdle: bool)
    ensures var x := Execute(plan, failing, k, swallowIdle);
      var calls := CallsOf(x.events);
      x.failed.Some? ==> calls != [] && x.failed.value == calls[|calls| - 1] && x.next - 1 in failing
    decreases |plan|
  {
    if plan == [] {
      return;
    }
    if k in failing && !(swallowIdle && plan[0].WaitForNetworkIdle?) {
      assert CallsOf([Called(plan[0])]) == [plan[0]];
      return;
    }
    ExecuteThrowsLast(plan[1..], failing, k + 1, swallowIdle);
    ExecuteHead(plan, failing, k, swallowIdle);
  }

  /**
   * The calls made are the plan, in order, up to and including the one that
   * threw, and each call takes one index.
   */
  lemma ExecuteFollowsPlan(plan: seq<Call>, failing: set<nat>, k: nat, swallowIdle: bool)
    ensures var x := Execute(plan, failing, k, swallowIdle);
      var calls := CallsOf(x.events);
      && calls <= plan
      && x.next == k + |calls|
      && (x.failed.None? ==> calls == plan)
      && (x.failed.Some? ==> calls != [] && x.failed.value == calls[|calls| - 1] && x.next - 1 in failing)
  {
    ExecutePrefix(plan, failing, k, swallowIdle);
    ExecuteThrowsLast(plan, failing, k, swallowIdle);
  }

  /** Nothing but calls and warnings is logged, and every call comes from the plan. */
  lemma {:induction false} ExecuteLogsOnlyPlannedCalls(plan: seq<Call>, failing: set<nat>, k: nat, swallowIdle: bool)
    ensures var x := Execute(plan, failing, k, swallowIdle);
      && ErrorLogged !in x.events
      && (forall e | e in x.events && e.Called? :: e.call in plan)
  {
    if plan != [] {
      ExecuteLogsOnlyPlannedCalls(plan[1..], failing, k + 1, swallowIdle);
      assert forall c | c in plan[1..] :: c in plan;
    }
  }

  /**
   * With `swallowIdle`, whether the wait at position `j` of the plan fails makes no
   * difference to the calls made, the call that threw, or the next index.
   */
  lemma {:induction false} IdleFailureIsSwallowed(plan: seq<Call>, failing: set<nat>, k: nat, j: nat)
    requires j < |plan| && plan[j].WaitForNetworkIdle?
    ensures SameRun(Execute(plan, failing + {k + j}, k, true), Execute(plan, failing - {k + j}, k, true))
    decreases j
  {
    if j == 0 {
      IdleAtHead(plan, failing, k);
    } else {
      IdleFailureIsSwallowed(plan[1..], failing, k + 1, j - 1);
      IdleLater(plan, failing, k, j);
    }
  }

  /**
   * With `swallowIdle`, a wait at position `j` that times out after every earlier
   * call succeeded is logged with a warning.
   */
  lemma {:induction false} ExecuteWarnsAt(plan: seq<Call>, failing: set<nat>, k: nat, j: nat)
    requires j < |plan| && plan[j].WaitForNetworkIdle?
    requires k + j in failing && forall n | k <= n < k + j :: n !in failing
    ensures Warned in Execute(plan, failing, k, true).events
    decreases j
  {
    var rest := Execute(plan[1..], failing, k + 1, true);
    if j == 0 {
      assert Execute(plan, failing, k, true).events == [Called(plan[0]), Warned] + rest.events;
    } else {
      ExecuteWarnsAt(plan[1..], failing, k + 1, j - 1);
      assert Execute(plan, failing, k, true).events == [Called(plan[0])] + rest.events;
    }
  }

  /** A warning is only ever logged for a wait of the plan that timed out. */
  lemma {:induction false} ExecuteWarnsOnlyOnIdle(plan: seq<Call>, failing: set<nat>, k: nat, swallowIdle: bool)
    ensures Warned in Execute(plan, failing, k, swallowIdle).events ==>
      swallowIdle && exists j | 0 <= j < |plan| ::
        plan[j].WaitForNetworkIdle? && k + j in failing && forall n | k <= n < k + j :: n !in failing
    decreases |plan|
  {
    if plan == [] {
      return;
    }
    var x := Execute(plan, failing, k, swallowIdle);
    var rest := Execute(plan[1..], failing, k + 1, swallowIdle);
    ExecuteWarnsOnlyOnIdle(plan[1..], failing, k + 1, swallowIdle);
    if k !in failing {
      assert x.events == [Called(plan[0])] + rest.events;
      if Warned in rest.events {
        var j :| 0 <= j < |plan[1..]| && plan[1..][j].WaitForNetworkIdle? && (k + 1) + j in failing
          && forall n | k + 1 <= n < (k + 1) + j :: n !in failing;
        assert plan[j + 1].WaitForNetworkIdle? && k + (j + 1) in failing;
        assert forall n | k <= n < k + (j + 1) :: n !in failing;
      }
    } else if swallowIdle && plan[0].WaitForNetworkIdle? {
      assert plan[0].WaitForNetworkIdle? && k + 0 in failing;
    } else {
      assert x.events == [Called(plan[0])];
    }
  }

  /** Two runs that made the same calls, threw the same call (if any) and stopped at the same index. */
  ghost predicate SameRun(a: Exec, b: Exec) {
    a.failed == b.failed && a.next == b.next && CallsOf(a.events) == CallsOf(b.events)
  }

  /** The wait is the first call of the block. */
  lemma IdleAtHead(plan: seq<Call>, failing: set<nat>, k: nat)
    requires plan != [] && plan[0].WaitForNetworkIdle?
    ensures SameRun(Execute(plan, failing + {k}, k, true), Execute(plan, failing - {k}, k, true))
  {
    SameFailuresAbove(plan[1..], failing + {k}, failing - {k}, k + 1);
    ExecuteHead(plan, failing + {k}, k, true);
    ExecuteHead(plan, failing - {k}, k, true);
  }

  /** The wait comes later, and the rest of the block from the next call on already runs alike. */
  lemma IdleLater(plan: seq<Call>, failing: set<nat>, k: nat, j: nat)
    requires 0 < j < |plan|
    requires SameRun(Execute(plan[1..], failing + {(k + 1) + (j - 1)}, k + 1, true),
                     Execute(plan[1..], failing - {(k + 1) + (j - 1)}, k + 1, true))
    ensures SameRun(Execute(plan, failing + {k + j}, k, true), Execute(plan, failing - {k + j}, k, true))
  {
    var fa, fb := failing + {k + j}, failing - {k + j};
    assert fa == failing + {(k + 1) + (j - 1)} && fb == failing - {(k + 1) + (j - 1)};
    assert (k in fa) == (k in fb);
    if k !in fa || plan[0].WaitForNetworkIdle? {
      ExecuteHead(plan, fa, k, true);
      ExecuteHead(plan, fb, k, true);
    }
  }

  /** The block completes exactly when every call that is not a swallowed wait succeeds. */
  lemma {:induction false} ExecuteCompletes(plan: seq<Call>, failing: set<nat>, k: nat, swallowIdle: bool)
    ensures Execute(plan, failing, k, swallowIdle).failed.None? <==>
      forall n | k <= n < k + |plan| && !(swallowIdle && plan[n - k].WaitForNetworkIdle?) :: n !in failing
    decreases |plan|
  {
    if plan != [] {
      ExecuteCompletes(plan[1..], failing, k + 1, swallowIdle);
    }
  }

  /** The block throws at its first failing call that is not a swallowed wait. */
  lemma {:induction false} ExecuteStopsAtFirstFailure(plan: seq<Call>, failing: set<nat>, k: nat, swallowIdle: bool)
    ensures var x := Execute(plan, failing, k, swallowIdle);
      x.failed.Some? ==>
        forall n | k <= n < x.next - 1 && n < k + |plan| :: n !in failing || (swallowIdle && plan[n - k].WaitForNetworkIdle?)
    decreases |plan|
  {
    if plan != [] && (k !in failing || (swallowIdle && plan[0].WaitForNetworkIdle?)) {
      ExecuteStopsAtFirstFailure(plan[1..], failing, k + 1, swallowIdle);
    }
  }

  /** Only the failures at index `k` and above matter to a run that starts at `k`. */
  lemma {:induction false} SameFailuresAbove(plan: seq<Call>, f: set<nat>, g: set<nat>, k: nat)
    requires forall n :: n >= k ==> (n in f <==> n in g)
    ensures Execute(plan, f, k, true) == Execute(plan, g, k, true)
    decreases |plan|
  {
    if plan != [] {
      SameFailuresAbove(plan[1..], f, g, k + 1);
    }
  }

  // ---------------------------------------------------------------------------
  // Awaiting a plan call by call
  // ---------------------------------------------------------------------------

  /**
   * `x` is what is left of the block when `done` has been logged and `plan[i..]`
   * remains to be awaited from call index `k`.
   */
  ghost predicate Pending(x: Exec, plan: seq<Call>, i: nat, done: seq<Event>, failing: set<nat>, k: nat, swallowIdle: bool) {
    i <= |plan| && x == Resume(done, Execute(plan[i..], failing, k, swallowIdle))
  }

  /** Once the whole plan has been awaited, nothing threw. */
  lemma PendingNothing(x: Exec, plan: seq<Call>, done: seq<Event>, failing: set<nat>, k: nat, swallowIdle: bool)
    requires Pending(x, plan, |plan|, done, failing, k, swallowIdle)
    ensures x == Exec(done, None, k)
  {
    assert plan[|plan|..] == [];
  }

  /** Awaits `plan[i]`, a call other than `page.evaluate`, inside a `try` block. */
  method Await(host: Host, c: Call, ghost x: Exec, ghost plan: seq<Call>, ghost swallowIdle: bool, ghost i: nat, ghost before: seq<Event>, ghost done: seq<Event>)
    returns (ok: bool, ghost done': seq<Event>)
    requires i < |plan| && plan[i] == c && Pending(x, plan, i, done, host.failing, host.calls, swallowIdle)
    requires host.log == before + done
    modifies host
    ensures host.calls == old(host.calls) + 1
    ensures host.content == if c.SetContent? then c.html else old(host.content)
    ensures ok ==> host.log == before + done' && Pending(x, plan, i + 1, done', host.failing, host.calls, swallowIdle)
    ensures !ok && !(swallowIdle && c.WaitForNetworkIdle?) ==> host.log == before + x.events && x.failed == Some(c) && x.next == host.calls
    ensures !ok && swallowIdle && c.WaitForNetworkIdle? ==>
      host.log + [Warned] == before + done' && Pending(x, plan, i + 1, done', host.failing, host.calls, swallowIdle)
  {
    ghost var k := host.calls;
    ok := host.Perform(c);
    done' := done + [Called(c)];
    if ok {
      StepSucceeds(plan, host.failing, k, i, done, swallowIdle);
    } else if swallowIdle && c.WaitForNetworkIdle? {
      StepWarns(plan, host.failing, k, i, done);
      done' := done + [Called(c), Warned];
    } else {
      StepThrows(plan, host.failing, k, i, done, swallowIdle);
    }
  }

  /** Awaits `page.evaluate(script)`, which is `plan[i]`, inside a `try` block. */
  method AwaitEvaluate(host: Host, script: PageScript, ghost x: Exec, ghost plan: seq<Call>, ghost swallowIdle: bool, ghost i: nat, ghost before: seq<Event>, ghost done: seq<Event>)
    returns (ok: bool, value: int, ghost done': seq<Event>)
    requires i < |plan| && plan[i] == Call.Evaluate(script) && Pending(x, plan, i, done, host.failing, host.calls, swallowIdle)
    requires host.log == before + done
    modifies host
    ensures host.calls == old(host.calls) + 1
    ensures host.content == old(host.content) && value == Evaluated(script, host.measure(host.content))
    ensures ok ==> host.log == before + done' && Pending(x, plan, i + 1, done', host.failing, host.calls, swallowIdle)
    ensures !ok ==> host.log == before + x.events && x.failed == Some(Call.Evaluate(script)) && x.next == host.calls
  {
    ghost var k := host.calls;
    ok, value := host.Evaluate(script);
    done' := done + [Called(Call.Evaluate(script))];
    if ok {
      StepSucceeds(plan, host.failing, k, i, done, swallowIdle);
    } else {
      StepThrows(plan, host.failing, k, i, done, swallowIdle);
    }
  }
}
