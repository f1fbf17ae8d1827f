/** The resilient locator and the menu navigator.

    The browser is an oracle. `Driver.script` lists what the page answers to
    the coming wait-until-clickable attempts, in order (an attempt past the
    end of the script times out, an element that never appears); the driver
    logs every attempt it is asked for and every element hovered and
    clicked. `get_element` and `submenu_dropdown` are methods over that
    driver, each proved against a function of the old script (`Retry`,
    `Traverse`) whose properties are lemmas.
 */
module Navigation {

  /** An element of the page, as handed back by a successful wait. */
  datatype Handle = Handle(id: nat)

  /** What one `WebDriverWait(...).until(element_to_be_clickable(...))` does:
      hand back the element, or raise (time out, stale element). */
  datatype Attempt = Clickable(handle: Handle) | TimedOut

  /** What `get_element` does: return an element, or let the last failure escape. */
  datatype Lookup = Located(handle: Handle) | NotFound

  /** One locate attempt as the driver sees it. */
  datatype Request = Request(xpath: string, waitTime: nat)

  /** How a menu traversal ends: every label clicked, or the locate of the
      label at `index` failed and its exception escaped. */
  datatype Outcome = Completed | FailedAt(index: nat)

  /** The number of locate attempts `get_element` makes at most. */
  const MAX_ATTEMPTS: nat := 3

  /** `get_element`'s default `wait_time` (seconds). */
  const DEFAULT_WAIT_TIME: nat := 5

  /** The answer to attempt `j` of a script. */
  function At(script: seq<Attempt>, j: nat): Attempt {
    if j < |script| then script[j] else TimedOut
  }

  /** The script left after `n` attempts. */
  function Drop(script: seq<Attempt>, n: nat): seq<Attempt> {
    if n <= |script| then script[n..] else []
  }

  /** After `n` attempts, attempt `j` is what attempt `n + j` was. */
  lemma AtDrop(script: seq<Attempt>, n: nat, j: nat)
    ensures At(Drop(script, n), j) == At(script, n + j)
  {
  }

  /** `n` copies of one request. */
  function Repeat(r: Request, n: nat): (rs: seq<Request>)
    ensures |rs| == n
  {
    if n == 0 then [] else [r] + Repeat(r, n - 1)
  }

  /** A repeated request holds nothing but that request. */
  lemma {:induction false} RepeatMembers(r: Request, n: nat)
    ensures forall x :: x in Repeat(r, n) ==> x == r
  {
    if n > 0 {
      RepeatMembers(r, n - 1);
    }
  }

  /** One `get_element` call: how many attempts it used and what it returned. */
  datatype Step = Step(attempts: nat, result: Lookup)

  /** The bounded retry over a script, with `budget` attempts left: the first
      clickable answer wins, each time-out moves on to the next attempt, and
      the last attempt's failure is what the caller sees. */
  function Retry(script: seq<Attempt>, budget: nat): (s: Step)
    ensures s.attempts <= budget
    ensures budget > 0 ==> s.attempts >= 1
    decreases budget
  {
    if budget == 0 then Step(0, NotFound)
    else match At(script, 0)
      case Clickable(h) => Step(1, Located(h))
      case TimedOut =>
        var s := Retry(Drop(script, 1), budget - 1);
        Step(s.attempts + 1, s.result)
  }

  /** A successful retry returns the answer of its last attempt, and every
      attempt before that one timed out. */
  lemma {:induction false} RetryFirstSuccessWins(script: seq<Attempt>, budget: nat)
    ensures var s := Retry(script, budget);
      s.result.Located? ==>
        s.attempts >= 1
        && At(script, s.attempts - 1) == Clickable(s.result.handle)
        && forall j: nat :: j < s.attempts - 1 ==> At(script, j) == TimedOut
    decreases budget
  {
    if budget > 0 && At(script, 0) == TimedOut {
      var rest := Drop(script, 1);
      RetryFirstSuccessWins(rest, budget - 1);
      var s := Retry(rest, budget - 1);
      if s.result.Located? {
        forall j: nat | j < s.attempts ensures At(script, j) == TimedOut {
          if j > 0 { AtDrop(script, 1, j - 1); }
        }
        AtDrop(script, 1, s.attempts - 1);
      }
    }
  }

  /** Conversely, if attempt `k` is the first clickable one and it is within
      the budget, the retry returns its element after `k + 1` attempts. */
  lemma {:induction false} RetrySucceedsAt(script: seq<Attempt>, budget: nat, k: nat, h: Handle)
    requires k < budget
    requires forall j: nat :: j < k ==> At(script, j) == TimedOut
    requires At(script, k) == Clickable(h)
    ensures Retry(script, budget) == Step(k + 1, Located(h))
    decreases k
  {
    if k > 0 {
      assert At(script, 0) == TimedOut;
      var rest := Drop(script, 1);
      forall j: nat | j < k - 1 ensures At(rest, j) == TimedOut {
        AtDrop(script, 1, j);
      }
      RetrySucceedsAt(rest, budget - 1, k - 1, h);
    }
  }

  /** A retry fails exactly when every one of its attempts timed out, and then
      it has used its whole budget. */
  lemma {:induction false} RetryFailsOnlyIfAllFail(script: seq<Attempt>, budget: nat)
    ensures var s := Retry(script, budget);
      (s.result == NotFound <==> forall j: nat :: j < budget ==> At(script, j) == TimedOut)
      && (s.result == NotFound ==> s.attempts == budget)
    decreases budget
  {
    if budget > 0 && At(script, 0) == TimedOut {
      var rest := Drop(script, 1);
      RetryFailsOnlyIfAllFail(rest, budget - 1);
      if forall j: nat :: j < budget - 1 ==> At(rest, j) == TimedOut {
        forall j: nat | j < budget ensures At(script, j) == TimedOut {
          if j > 0 { AtDrop(script, 1, j - 1); }
        }
      } else {
        var j: nat :| j < budget - 1 && At(rest, j) != TimedOut;
        AtDrop(script, 1, j);
      }
    }
  }

  /** The page answers each attempt in turn; the driver records what it is
      asked to do. Stands for the Selenium web driver. */
  class Driver {
    /** The answers to the coming locate attempts. */
    var script: seq<Attempt>
    /** Every locate attempt made so far, in order. */
    var requests: seq<Request>
    /** Every element hovered over and clicked so far, in order. */
    var clicks: seq<Handle>

    constructor (script: seq<Attempt>)
      ensures this.script == script && requests == [] && clicks == []
    {
      this.script := script;
      requests := [];
      clicks := [];
    }

    /** `WebDriverWait(driver, waitTime).until(element_to_be_clickable((By.XPATH, xpath)))`. */
    method WaitUntilClickable(xpath: string, waitTime: nat) returns (a: Attempt)
      modifies this
      ensures a == At(old(script), 0)
      ensures script == Drop(old(script), 1)
      ensures requests == old(requests) + [Request(xpath, waitTime)]
      ensures clicks == old(clicks)
    {
      a := At(script, 0);
      script := Drop(script, 1);
      requests := requests + [Request(xpath, waitTime)];
    }

    /** An action chain that moves to the element and clicks it. */
    method MoveToAndClick(h: Handle)
      modifies this
      ensures clicks == old(clicks) + [h]
      ensures script == old(script) && requests == old(requests)
    {
      clicks := clicks + [h];
    }
  }

  /** Skipping `a` attempts and then `b` more skips `a + b`. */
  lemma DropDrop(script: seq<Attempt>, a: nat, b: nat)
    ensures Drop(Drop(script, a), b) == Drop(script, a + b)
  {
    if a + b <= |script| {
      assert script[a..][b..] == script[a + b..];
    }
  }

  /** `get_element`: up to three waits for the element, each one tried only
      when the one before it raised; the third one's failure escapes. The
      settle delay after success is left out. */
  method GetElement(driver: Driver, xpath: string, waitTime: nat) returns (r: Lookup)
    modifies driver
    ensures var s := Retry(old(driver.script), MAX_ATTEMPTS);
      r == s.result
      && driver.script == Drop(old(driver.script), s.attempts)
      && driver.requests == old(driver.requests) + Repeat(Request(xpath, waitTime), s.attempts)
      && driver.clicks == old(driver.clicks)
  {
    ghost var script := driver.script;
    ghost var req := Request(xpath, waitTime);
    assert Repeat(req, 1) == [req];
    assert Repeat(req, 2) == [req, req];
    assert Repeat(req, 3) == [req, req, req];
    DropDrop(script, 1, 1);
    DropDrop(script, 2, 1);
    assert Retry(Drop(script, 1), 2) == (
      match At(script, 1)
        case Clickable(h) => Step(1, Located(h))
        case TimedOut => Step(Retry(Drop(script, 2), 1).attempts + 1, Retry(Drop(script, 2), 1).result));
    var a := driver.WaitUntilClickable(xpath, waitTime);
    if a.TimedOut? {
      a := driver.WaitUntilClickable(xpath, waitTime);
      if a.TimedOut? {
        a := driver.WaitUntilClickable(xpath, waitTime);
        if a.TimedOut? {
          return NotFound;
        }
      }
    }
    r := Located(a.handle);
  }

  /** A traversal as the driver sees it: the locate attempts made, the
      elements clicked, the attempts of each `get_element` call, the script
      left, and how it ended. */
  datatype Trace = Trace(requests: seq<Request>, clicked: seq<Handle>, calls: seq<nat>,
                         rest: seq<Attempt>, outcome: Outcome)

  /** An outcome of a traversal started `k` labels further on. */
  function Later(o: Outcome, k: nat): Outcome {
    match o
    case Completed => Completed
    case FailedAt(i) => FailedAt(i + k)
  }

  /** The menu traversal over a script: locate each label's element with the
      bounded retry and click it, and stop at the first label that cannot be
      located. */
  function Traverse(script: seq<Attempt>, labels: seq<Request>): Trace
    decreases |labels|
  {
    if labels == [] then Trace([], [], [], script, Completed)
    else
      var s := Retry(script, MAX_ATTEMPTS);
      var tried := Repeat(labels[0], s.attempts);
      var after := Drop(script, s.attempts);
      match s.result
      case NotFound => Trace(tried, [], [s.attempts], after, FailedAt(0))
      case Located(h) =>
        var t := Traverse(after, labels[1..]);
        Trace(tried + t.requests, [h] + t.clicked, [s.attempts] + t.calls, t.rest, Later(t.outcome, 1))
  }

  /** One step of a traversal whose first label is located after `n` attempts. */
  lemma TraverseLocated(script: seq<Attempt>, labels: seq<Request>, n: nat, h: Handle)
    requires labels != [] && Retry(script, MAX_ATTEMPTS) == Step(n, Located(h))
    ensures var t := Traverse(Drop(script, n), labels[1..]);
      Traverse(script, labels)
      == Trace(Repeat(labels[0], n) + t.requests, [h] + t.clicked, [n] + t.calls, t.rest, Later(t.outcome, 1))
  {
  }

  /** A traversal whose first label cannot be located ends there. */
  lemma TraverseNotFound(script: seq<Attempt>, labels: seq<Request>, n: nat)
    requires labels != [] && Retry(script, MAX_ATTEMPTS) == Step(n, NotFound)
    ensures Traverse(script, labels) == Trace(Repeat(labels[0], n), [], [n], Drop(script, n), FailedAt(0))
  {
  }

  /** The requests of consecutive `get_element` calls, `calls[i]` attempts at
      `labels[i]` each. */
  function Expand(labels: seq<Request>, calls: seq<nat>): seq<Request>
    requires |labels| == |calls|
  {
    if labels == [] then [] else Repeat(labels[0], calls[0]) + Expand(labels[1..], calls[1..])
  }

  /** Expanded requests name only the labels they were expanded from. */
  lemma {:induction false} ExpandMembers(labels: seq<Request>, calls: seq<nat>)
    requires |labels| == |calls|
    ensures forall r :: r in Expand(labels, calls) ==> r in labels
  {
    if labels != [] {
      RepeatMembers(labels[0], calls[0]);
      ExpandMembers(labels[1..], calls[1..]);
    }
  }

  /** The shape of a traversal over `labels`: one `get_element` call per
      label attempted, in the order of the labels, each of one to three
      attempts; a completed traversal attempted every label and made one
      click per label; a traversal that failed at label `k` attempted labels
      0 to `k` only, made `k` clicks, and spent all three attempts on label
      `k` (a click never fails here). */
  ghost predicate Shaped(labels: seq<Request>, t: Trace) {
    && |t.calls| <= |labels|
    && t.requests == Expand(labels[..|t.calls|], t.calls)
    && (forall i :: 0 <= i < |t.calls| ==> 1 <= t.calls[i] <= MAX_ATTEMPTS)
    && (t.outcome == Completed ==> |t.calls| == |labels| && |t.clicked| == |labels|)
    && (t.outcome.FailedAt? ==>
          && t.outcome.index < |labels|
          && |t.calls| == t.outcome.index + 1
          && |t.clicked| == t.outcome.index
          && t.calls[t.outcome.index] == MAX_ATTEMPTS)
  }

  /** A first label clicked after `n` attempts, in front of a shaped rest. */
  lemma ShapedLocated(labels: seq<Request>, t: Trace, rest: Trace, n: nat, h: Handle)
    requires labels != [] && 1 <= n <= MAX_ATTEMPTS
    requires Shaped(labels[1..], rest)
    requires t == Trace(Repeat(labels[0], n) + rest.requests, [h] + rest.clicked, [n] + rest.calls,
                        rest.rest, Later(rest.outcome, 1))
    ensures Shaped(labels, t)
  {
    assert labels[1..][..|rest.calls|] == labels[..|rest.calls| + 1][1..];
  }

  /** A first label that three attempts could not locate. */
  lemma ShapedNotFound(labels: seq<Request>, t: Trace, rest: seq<Attempt>)
    requires labels != []
    requires t == Trace(Repeat(labels[0], MAX_ATTEMPTS), [], [MAX_ATTEMPTS], rest, FailedAt(0))
    ensures Shaped(labels, t)
  {
    assert labels[..1][1..] == [];
  }

  /** Every traversal has the shape `Shaped` describes. */
  lemma {:induction false} TraverseShape(script: seq<Attempt>, labels: seq<Request>)
    ensures Shaped(labels, Traverse(script, labels))
    decreases |labels|
  {
    if labels != [] {
      var s := Retry(script, MAX_ATTEMPTS);
      RetryFailsOnlyIfAllFail(script, MAX_ATTEMPTS);
      match s.result
      case NotFound =>
        TraverseNotFound(script, labels, s.attempts);
        ShapedNotFound(labels, Traverse(script, labels), Drop(script, s.attempts));
      case Located(h) =>
        var after := Drop(script, s.attempts);
        TraverseShape(after, labels[1..]);
        TraverseLocated(script, labels, s.attempts, h);
        ShapedLocated(labels, Traverse(script, labels), Traverse(after, labels[1..]), s.attempts, h);
    }
  }

  /** A traversal makes at most three locate attempts per label. */
  lemma {:induction false} TraverseAttemptBound(script: seq<Attempt>, labels: seq<Request>)
    ensures |Traverse(script, labels).requests| <= MAX_ATTEMPTS * |labels|
    decreases |labels|
  {
    if labels != [] {
      var s := Retry(script, MAX_ATTEMPTS);
      TraverseAttemptBound(Drop(script, s.attempts), labels[1..]);
    }
  }

  /** Stop on failure: once label `k` cannot be located, no label after it is
      asked for and nothing more is clicked. */
  lemma {:induction false} TraverseStopsAtFailure(script: seq<Attempt>, labels: seq<Request>)
    ensures var t := Traverse(script, labels);
      t.outcome.FailedAt? ==>
        && t.outcome.index < |labels|
        && (forall r :: r in t.requests ==> r in labels[..t.outcome.index + 1])
        && |t.clicked| == t.outcome.index
  {
    TraverseShape(script, labels);
    var t := Traverse(script, labels);
    if t.outcome.FailedAt? {
      ExpandMembers(labels[..|t.calls|], t.calls);
    }
  }

  /** The answer to the last attempt of each of the consecutive calls
      `calls` (a call of no attempts answers nothing, shown as a time-out). */
  function LastAnswers(script: seq<Attempt>, calls: seq<nat>): (answers: seq<Attempt>)
    ensures |answers| == |calls|
    decreases |calls|
  {
    if calls == [] then []
    else
      var n := calls[0];
      [if n == 0 then TimedOut else At(script, n - 1)] + LastAnswers(Drop(script, n), calls[1..])
  }

  /** Each click, in order, is the element that answered the last attempt
      of the matching call: the first click the first call's, and so on. */
  ghost predicate ClicksAnswer(script: seq<Attempt>, calls: seq<nat>, clicked: seq<Handle>)
    decreases |clicked|
  {
    && |clicked| <= |calls|
    && (clicked != [] ==>
          && calls[0] >= 1
          && At(script, calls[0] - 1) == Clickable(clicked[0])
          && ClicksAnswer(Drop(script, calls[0]), calls[1..], clicked[1..]))
  }

  /** Read by index: click `i` is the last answer of call `i`. */
  lemma {:induction false} ClicksAnswerAt(script: seq<Attempt>, calls: seq<nat>, clicked: seq<Handle>)
    requires ClicksAnswer(script, calls, clicked)
    ensures |clicked| <= |calls|
    ensures forall i :: 0 <= i < |clicked| ==> LastAnswers(script, calls)[i] == Clickable(clicked[i])
    decreases |clicked|
  {
    if clicked != [] {
      ClicksAnswerAt(Drop(script, calls[0]), calls[1..], clicked[1..]);
      forall i | 0 <= i < |clicked| ensures LastAnswers(script, calls)[i] == Clickable(clicked[i]) {
        if i > 0 {
          assert clicked[i] == clicked[1..][i - 1];
        }
      }
    }
  }

  /** A located element answered the last attempt the retry made. */
  lemma RetryLastAnswer(script: seq<Attempt>, n: nat, h: Handle)
    requires Retry(script, MAX_ATTEMPTS) == Step(n, Located(h))
    ensures n >= 1 && At(script, n - 1) == Clickable(h)
  {
    RetryFirstSuccessWins(script, MAX_ATTEMPTS);
  }

  /** A first label clicked on attempt `n`, in front of a rest whose clicks
      answer its calls. */
  lemma ClicksLocated(script: seq<Attempt>, t: Trace, rest: Trace, n: nat, h: Handle)
    requires n >= 1 && At(script, n - 1) == Clickable(h)
    requires ClicksAnswer(Drop(script, n), rest.calls, rest.clicked)
    requires t.clicked == [h] + rest.clicked && t.calls == [n] + rest.calls
    ensures ClicksAnswer(script, t.calls, t.clicked)
  {
    assert t.calls[1..] == rest.calls && t.clicked[1..] == rest.clicked;
  }

  /** The clicks of a traversal answer its calls. */
  lemma {:induction false} TraverseClicksAnswer(script: seq<Attempt>, labels: seq<Request>)
    ensures var t := Traverse(script, labels); ClicksAnswer(script, t.calls, t.clicked)
    decreases |labels|
  {
    if labels != [] {
      var s := Retry(script, MAX_ATTEMPTS);
      match s.result
      case NotFound =>
        TraverseNotFound(script, labels, s.attempts);
      case Located(h) =>
        var after := Drop(script, s.attempts);
        RetryLastAnswer(script, s.attempts, h);
        TraverseClicksAnswer(after, labels[1..]);
        TraverseLocated(script, labels, s.attempts, h);
        ClicksLocated(script, Traverse(script, labels), Traverse(after, labels[1..]), s.attempts, h);
    }
  }

  /** Every click of a traversal is the element its label's `get_element`
      call returned: click `i` is the answer to the last attempt of call `i`. */
  lemma TraverseClicksLocatedElements(script: seq<Attempt>, labels: seq<Request>)
    ensures var t := Traverse(script, labels);
      && |t.clicked| <= |t.calls|
      && forall i :: 0 <= i < |t.clicked| ==> LastAnswers(script, t.calls)[i] == Clickable(t.clicked[i])
  {
    TraverseClicksAnswer(script, labels);
    var t := Traverse(script, labels);
    ClicksAnswerAt(script, t.calls, t.clicked);
  }

  /** The total of a sequence of attempt counts. */
  function Sum(calls: seq<nat>): nat {
    if calls == [] then 0 else calls[0] + Sum(calls[1..])
  }

  /** A traversal that failed at label `k` did so because the three attempts
      after the first `k` calls all timed out. */
  ghost predicate FailedOnTimeOuts(script: seq<Attempt>, t: Trace) {
    t.outcome.FailedAt? ==>
      && t.outcome.index <= |t.calls|
      && forall j: nat :: j < MAX_ATTEMPTS ==> At(Drop(script, Sum(t.calls[..t.outcome.index])), j) == TimedOut
  }

  /** A first label clicked after `n` attempts, in front of a rest that
      failed only on time-outs. */
  lemma FailedOnTimeOutsLocated(script: seq<Attempt>, t: Trace, rest: Trace, n: nat)
    requires FailedOnTimeOuts(Drop(script, n), rest)
    requires t.calls == [n] + rest.calls && t.outcome == Later(rest.outcome, 1)
    ensures FailedOnTimeOuts(script, t)
  {
    if t.outcome.FailedAt? {
      var k := rest.outcome.index;
      assert t.calls[..k + 1] == [n] + rest.calls[..k];
      assert ([n] + rest.calls[..k])[1..] == rest.calls[..k];
      DropDrop(script, n, Sum(rest.calls[..k]));
    }
  }

  /** A first label that three time-outs could not locate. */
  lemma FailedOnTimeOutsNotFound(script: seq<Attempt>, t: Trace, n: nat)
    requires forall j: nat :: j < MAX_ATTEMPTS ==> At(script, j) == TimedOut
    requires t.calls == [n] && t.outcome == FailedAt(0)
    ensures FailedOnTimeOuts(script, t)
  {
    assert t.calls[..0] == [];
    assert Drop(script, 0) == script;
  }

  /** The other half of stop-on-failure: a traversal fails at label `k` only
      when all three attempts of label `k`'s `get_element` call time out. */
  lemma {:induction false} TraverseFailsOnlyOnTimeOuts(script: seq<Attempt>, labels: seq<Request>)
    ensures FailedOnTimeOuts(script, Traverse(script, labels))
    decreases |labels|
  {
    if labels != [] {
      var s := Retry(script, MAX_ATTEMPTS);
      match s.result
      case NotFound =>
        RetryFailsOnlyIfAllFail(script, MAX_ATTEMPTS);
        TraverseNotFound(script, labels, s.attempts);
        FailedOnTimeOutsNotFound(script, Traverse(script, labels), s.attempts);
      case Located(h) =>
        var after := Drop(script, s.attempts);
        TraverseFailsOnlyOnTimeOuts(after, labels[1..]);
        TraverseLocated(script, labels, s.attempts, h);
        FailedOnTimeOutsLocated(script, Traverse(script, labels), Traverse(after, labels[1..]), s.attempts);
    }
  }

  /** When each of the next `|labels|` attempts is clickable, every label is
      located at its first attempt and clicked, and the traversal completes. */
  lemma {:induction false} TraverseCompletesWhenClickable(script: seq<Attempt>, labels: seq<Request>)
    requires forall j: nat :: j < |labels| ==> At(script, j).Clickable?
    ensures var t := Traverse(script, labels);
      t.outcome == Completed && |t.clicked| == |labels| && t.requests == labels
    decreases |labels|
  {
    if labels != [] {
      var h := At(script, 0).handle;
      RetrySucceedsAt(script, MAX_ATTEMPTS, 0, h);
      var after := Drop(script, 1);
      forall j: nat | j < |labels| - 1 ensures At(after, j).Clickable? {
        AtDrop(script, 1, j);
      }
      TraverseCompletesWhenClickable(after, labels[1..]);
      TraverseLocated(script, labels, 1, h);
      assert Repeat(labels[0], 1) == [labels[0]];
      assert labels == [labels[0]] + labels[1..];
    }
  }

  /** A label that times out on each of the next three attempts fails the
      traversal at once, after three requests for it. */
  lemma {:induction false} FirstLabelMissing(script: seq<Attempt>, labels: seq<Request>)
    requires labels != []
    requires At(script, 0) == TimedOut && At(script, 1) == TimedOut && At(script, 2) == TimedOut
    ensures var t := Traverse(script, labels);
      t.outcome == FailedAt(0) && t.requests == Repeat(labels[0], 3) && t.clicked == []
  {
    RetryFailsOnlyIfAllFail(script, MAX_ATTEMPTS);
    TraverseNotFound(script, labels, 3);
  }

  /** Putting a clicked first label in front of a traversal that failed at once. */
  lemma FailAfterOneClick(t: Trace, rest: Trace, first: Request, missing: Request, h: Handle)
    requires t.requests == Repeat(first, 1) + rest.requests && t.clicked == [h] + rest.clicked
    requires t.outcome == Later(rest.outcome, 1)
    requires rest.outcome == FailedAt(0) && rest.requests == Repeat(missing, 3) && rest.clicked == []
    ensures t.outcome == FailedAt(1) && t.requests == [first, missing, missing, missing] && t.clicked == [h]
  {
    assert Repeat(first, 1) == [first];
    assert Repeat(missing, 2) == [missing, missing];
    assert Repeat(missing, 3) == [missing, missing, missing];
  }

  /** Three labels where the first is clickable at once and the second never
      shows up: the second is tried three times, the third is never asked
      for, and only the first is clicked. */
  lemma {:induction false} MiddleLabelMissing(script: seq<Attempt>, labels: seq<Request>, h: Handle)
    requires |labels| == 3
    requires At(script, 0) == Clickable(h)
    requires At(script, 1) == TimedOut && At(script, 2) == TimedOut && At(script, 3) == TimedOut
    ensures var t := Traverse(script, labels);
      && t.outcome == FailedAt(1)
      && t.requests == [labels[0], labels[1], labels[1], labels[1]]
      && t.clicked == [h]
  {
    var after := Drop(script, 1);
    FirstLabelMissing(after, labels[1..]);
    TraverseLocated(script, labels, 1, h);
    FailAfterOneClick(Traverse(script, labels), Traverse(after, labels[1..]), labels[0], labels[1..][0], h);
  }

  /** The `xpath_format` of a menu: the text around its one `{}` placeholder. */
  datatype XPathFormat = XPathFormat(before: string, after: string)

  /** `xpath_format.format(menu)`. */
  function Format(f: XPathFormat, menu: string): string {
    f.before + menu + f.after
  }

  /** Different labels give different XPaths under one format. */
  lemma FormatInjective(f: XPathFormat, l1: string, l2: string)
    requires Format(f, l1) == Format(f, l2)
    ensures l1 == l2
  {
    var n := |f.before|;
    assert l1 == Format(f, l1)[n..n + |l1|];
    assert |l1| == |l2|;
    assert l2 == Format(f, l2)[n..n + |l2|];
  }

  /** The locate requests `submenu_dropdown` makes for its labels, one per label. */
  function MenuRequests(f: XPathFormat, menus: seq<string>): (rs: seq<Request>)
    ensures |rs| == |menus|
  {
    seq(|menus|, i requires 0 <= i < |menus| => Request(Format(f, menus[i]), DEFAULT_WAIT_TIME))
  }

  /** When `submenu_dropdown` fails at label `k`, no XPath of a later label
      that differs from labels 0 to `k` is ever asked for. */
  lemma {:induction false} LaterLabelsNeverRequested(script: seq<Attempt>, f: XPathFormat, menus: seq<string>, j: nat)
    requires var t := Traverse(script, MenuRequests(f, menus));
      t.outcome.FailedAt? && t.outcome.index < j < |menus| && menus[j] !in menus[..t.outcome.index + 1]
    ensures forall r :: r in Traverse(script, MenuRequests(f, menus)).requests ==> r.xpath != Format(f, menus[j])
  {
    var labels := MenuRequests(f, menus);
    var t := Traverse(script, labels);
    var k := t.outcome.index;
    TraverseStopsAtFailure(script, labels);
    forall r | r in t.requests ensures r.xpath != Format(f, menus[j]) {
      var i :| 0 <= i < k + 1 && labels[..k + 1][i] == r;
      if r.xpath == Format(f, menus[j]) {
        FormatInjective(f, menus[i], menus[j]);
      }
    }
  }

  /** `whole` is the traversal `t` of the remaining labels, after `done`
      requests and `doneClicks` clicks spent on the first `i` labels. */
  ghost predicate Resumes(whole: Trace, t: Trace, done: seq<Request>, doneClicks: seq<Handle>, i: nat) {
    && whole.outcome == Later(t.outcome, i)
    && whole.requests == done + t.requests
    && whole.clicked == doneClicks + t.clicked
    && whole.rest == t.rest
  }

  /** A traversal `t` that clicked `h` after the requests `tried` and went on
      as `rest` moves the resumption point one label on. */
  lemma ResumesStep(whole: Trace, t: Trace, rest: Trace, done: seq<Request>, doneClicks: seq<Handle>,
                    i: nat, tried: seq<Request>, h: Handle)
    requires t.requests == tried + rest.requests && t.clicked == [h] + rest.clicked
    requires t.rest == rest.rest && t.outcome == Later(rest.outcome, 1)
    requires Resumes(whole, t, done, doneClicks, i)
    ensures Resumes(whole, rest, done + tried, doneClicks + [h], i + 1)
  {
    assert done + (tried + rest.requests) == (done + tried) + rest.requests;
    assert doneClicks + ([h] + rest.clicked) == (doneClicks + [h]) + rest.clicked;
  }

  /** Locating the next label after `n` attempts moves the resumption point one label on. */
  lemma ResumesLocated(whole: Trace, script: seq<Attempt>, labels: seq<Request>, done: seq<Request>,
                       doneClicks: seq<Handle>, i: nat, n: nat, h: Handle)
    requires labels != [] && Retry(script, MAX_ATTEMPTS) == Step(n, Located(h))
    requires Resumes(whole, Traverse(script, labels), done, doneClicks, i)
    ensures Resumes(whole, Traverse(Drop(script, n), labels[1..]), done + Repeat(labels[0], n), doneClicks + [h], i + 1)
  {
    TraverseLocated(script, labels, n, h);
    ResumesStep(whole, Traverse(script, labels), Traverse(Drop(script, n), labels[1..]),
                done, doneClicks, i, Repeat(labels[0], n), h);
  }

  /** A label that cannot be located ends the resumed traversal there. */
  lemma ResumesNotFound(whole: Trace, script: seq<Attempt>, labels: seq<Request>, done: seq<Request>,
                        doneClicks: seq<Handle>, i: nat, n: nat)
    requires labels != [] && Retry(script, MAX_ATTEMPTS) == Step(n, NotFound)
    requires Resumes(whole, Traverse(script, labels), done, doneClicks, i)
    ensures whole.outcome == FailedAt(i) && whole.requests == done + Repeat(labels[0], n)
    ensures whole.clicked == doneClicks && whole.rest == Drop(script, n)
  {
    TraverseNotFound(script, labels, n);
  }

  /** Concatenation is associative. */
  lemma Associate<T>(a: seq<T>, b: seq<T>, c: seq<T>)
    ensures a + (b + c) == (a + b) + c
  {
  }

  /** One turn of `submenu_dropdown`'s loop: locate the item, and move to it
      and click it when it was found. */
  method SelectItem(driver: Driver, xpath: string) returns (r: Lookup)
    modifies driver
    ensures var s := Retry(old(driver.script), MAX_ATTEMPTS);
      && r == s.result
      && driver.script == Drop(old(driver.script), s.attempts)
      && driver.requests == old(driver.requests) + Repeat(Request(xpath, DEFAULT_WAIT_TIME), s.attempts)
      && driver.clicks == old(driver.clicks) + (if r.Located? then [r.handle] else [])
  {
    r := GetElement(driver, xpath, DEFAULT_WAIT_TIME);
    if r.Located? {
      driver.MoveToAndClick(r.handle);
    }
  }

  /** `submenu_dropdown`: for each label in turn, locate its element, move to
      it and click; a label that cannot be located ends the traversal with
      its exception. The settle delay after each click is left out. */
  method SubmenuDropdown(driver: Driver, f: XPathFormat, menus: seq<string>) returns (outcome: Outcome)
    modifies driver
    ensures var t := Traverse(old(driver.script), MenuRequests(f, menus));
      && outcome == t.outcome
      && driver.requests == old(driver.requests) + t.requests
      && driver.clicks == old(driver.clicks) + t.clicked
      && driver.script == t.rest
  {
    ghost var labels := MenuRequests(f, menus);
    ghost var whole := Traverse(driver.script, labels);
    ghost var pending := labels;
    ghost var done: seq<Request> := [];
    ghost var doneClicks: seq<Handle> := [];
    var i := 0;
    while i < |menus|
      invariant 0 <= i <= |menus|
      invariant pending == labels[i..]
      invariant driver.requests == old(driver.requests) + done
      invariant driver.clicks == old(driver.clicks) + doneClicks
      invariant Resumes(whole, Traverse(driver.script, pending), done, doneClicks, i)
    {
      ghost var before := driver.script;
      var xpath := Format(f, menus[i]);
      assert pending[0] == Request(xpath, DEFAULT_WAIT_TIME);
      var element := SelectItem(driver, xpath);
      ghost var n := Retry(before, MAX_ATTEMPTS).attempts;
      if element.NotFound? {
        ResumesNotFound(whole, before, pending, done, doneClicks, i, n);
        Associate(old(driver.requests), done, Repeat(pending[0], n));
        return FailedAt(i);
      }
      ResumesLocated(whole, before, pending, done, doneClicks, i, n, element.handle);
      Associate(old(driver.requests), done, Repeat(pending[0], n));
      Associate(old(driver.clicks), doneClicks, [element.handle]);
      done := done + Repeat(pending[0], n);
      doneClicks := doneClicks + [element.handle];
      pending := pending[1..];
      i := i + 1;
    }
    assert done + [] == done && doneClicks + [] == doneClicks;
    outcome := Completed;
  }
}
