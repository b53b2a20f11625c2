/** `Consumer.Listen`: the fetch → extract context → handle → commit loop.

    The broker, the cancellation signal and the handler are outside the
    model. The loop is driven by a script of `Step`s, one per turn of the Go
    `for` loop: either the fetch failed (and whether the context had been
    cancelled by then), or a message arrived together with what the handler
    returned for it and what the commit call would return. The script is finite;
    when it runs out the real loop would still be blocked in the next fetch.

    A commit here is a `CommitMessages` call that returned nil. The reader
    commits asynchronously, so such a call only queues the offset; what the
    broker finally stores is outside the model. */
module Consumer {
  import opened Kafka

  datatype Step =
    | FetchFailed(cancelled: bool, cause: string)
    | Fetched(msg: Message, handlerOk: bool, commitOk: bool)

  /** What the loop did, in order: a handler call with its verdict, or a
      commit call for a message that returned nil. */
  datatype Event = Handled(msg: Message, ok: bool) | Committed(msg: Message)

  datatype Exit =
    | Stopped                 // fetch failed after cancellation: Listen returns nil
    | FetchError(cause: string)  // "failed to fetch message: ..."
    | CommitError(msg: Message)  // "failed to commit offset: ..."
    | Blocked                 // still waiting in the next fetch

  datatype Run = Run(exit: Exit, trace: seq<Event>, consumed: nat)

  /** A step after which the loop goes round again. */
  predicate Continues(s: Step) {
    s.Fetched? && (s.handlerOk ==> s.commitOk)
  }

  /** How a step ends the loop: the exit table of `Listen`. */
  function ExitFor(s: Step): (e: Exit)
    ensures e.Blocked? <==> Continues(s)
  {
    match s
    case FetchFailed(cancelled, cause) => if cancelled then Stopped else FetchError(cause)
    case Fetched(msg, handlerOk, commitOk) =>
      if handlerOk && !commitOk then CommitError(msg) else Blocked
  }

  /** The handler calls a script calls for: every fetched message once, in
      fetch order, with the handler's verdict. */
  function Deliveries(steps: seq<Step>): seq<(Message, bool)> {
    if |steps| == 0 then []
    else if steps[0].Fetched? then [(steps[0].msg, steps[0].handlerOk)] + Deliveries(steps[1..])
    else Deliveries(steps[1..])
  }

  /** The fetched messages, in fetch order. */
  function Fetches(steps: seq<Step>): seq<Message> {
    if |steps| == 0 then []
    else if steps[0].Fetched? then [steps[0].msg] + Fetches(steps[1..])
    else Fetches(steps[1..])
  }

  /** The messages whose handler succeeded and whose commit call returned nil. */
  function Acknowledged(steps: seq<Step>): seq<Message> {
    if |steps| == 0 then []
    else if steps[0].Fetched? && steps[0].handlerOk && steps[0].commitOk then
      [steps[0].msg] + Acknowledged(steps[1..])
    else Acknowledged(steps[1..])
  }

  /** The handler calls recorded in a trace. */
  function Handlings(t: seq<Event>): seq<(Message, bool)> {
    if |t| == 0 then []
    else if t[0].Handled? then [(t[0].msg, t[0].ok)] + Handlings(t[1..])
    else Handlings(t[1..])
  }

  /** The commits recorded in a trace. */
  function Commits(t: seq<Event>): seq<Message> {
    if |t| == 0 then []
    else if t[0].Committed? then [t[0].msg] + Commits(t[1..])
    else Commits(t[1..])
  }

  /** Every commit comes right after a successful handler call for the same
      message: no commit without success, and no second handler call
      between a handler call and its commit. */
  ghost predicate CommitOnlyAfterSuccess(t: seq<Event>) {
    forall i :: 0 <= i < |t| && t[i].Committed? ==> 0 < i && t[i - 1] == Handled(t[i].msg, true)
  }

  /** A successful handler call is followed by the commit of that message
      before anything else happens. */
  ghost predicate SuccessThenCommit(t: seq<Event>) {
    forall i :: 0 <= i < |t| - 1 && t[i].Handled? && t[i].ok ==> t[i + 1] == Committed(t[i].msg)
  }

  lemma TraceConcat(t1: seq<Event>, t2: seq<Event>)
    requires CommitOnlyAfterSuccess(t1) && CommitOnlyAfterSuccess(t2)
    requires SuccessThenCommit(t1) && SuccessThenCommit(t2)
    requires |t1| > 0 && !(t1[|t1| - 1].Handled? && t1[|t1| - 1].ok)
    ensures CommitOnlyAfterSuccess(t1 + t2) && SuccessThenCommit(t1 + t2)
    ensures Handlings(t1 + t2) == Handlings(t1) + Handlings(t2)
    ensures Commits(t1 + t2) == Commits(t1) + Commits(t2)
  {
    var t := t1 + t2;
    forall i | 0 <= i < |t| && t[i].Committed?
      ensures 0 < i && t[i - 1] == Handled(t[i].msg, true)
    {
      if i >= |t1| {
        assert t[i] == t2[i - |t1|];
      }
    }
    forall i | 0 <= i < |t| - 1 && t[i].Handled? && t[i].ok
      ensures t[i + 1] == Committed(t[i].msg)
    {
      if i >= |t1| {
        assert t[i] == t2[i - |t1|];
      }
    }
    HandlingsConcat(t1, t2);
    CommitsConcat(t1, t2);
  }

  lemma {:induction false} HandlingsConcat(t1: seq<Event>, t2: seq<Event>)
    ensures Handlings(t1 + t2) == Handlings(t1) + Handlings(t2)
  {
    if |t1| > 0 {
      assert (t1 + t2)[1..] == t1[1..] + t2;
      HandlingsConcat(t1[1..], t2);
    } else {
      assert t1 + t2 == t2;
    }
  }

  lemma {:induction false} CommitsConcat(t1: seq<Event>, t2: seq<Event>)
    ensures Commits(t1 + t2) == Commits(t1) + Commits(t2)
  {
    if |t1| > 0 {
      assert (t1 + t2)[1..] == t1[1..] + t2;
      CommitsConcat(t1[1..], t2);
    } else {
      assert t1 + t2 == t2;
    }
  }

  /** A run ends only at a step that ends the loop, at the first such step,
      with that step's exit. */
  ghost predicate EndsAtFirstExit(steps: seq<Step>, r: Run) {
    && r.consumed <= |steps|
    && (forall i :: 0 <= i < r.consumed - 1 ==> Continues(steps[i]))
    && (r.exit.Blocked? <==> forall i :: 0 <= i < |steps| ==> Continues(steps[i]))
    && (r.exit.Blocked? ==> r.consumed == |steps|)
    && (!r.exit.Blocked? ==> 0 < r.consumed && r.exit == ExitFor(steps[r.consumed - 1]))
  }

  /** A run's trace agrees with the steps it consumed. */
  ghost predicate TraceFaithful(steps: seq<Step>, r: Run)
    requires r.consumed <= |steps|
  {
    // the handler saw every fetched message once, in fetch order
    && Handlings(r.trace) == Deliveries(steps[..r.consumed])
    // a commit is recorded exactly when the handler and the commit call succeeded
    && Commits(r.trace) == Acknowledged(steps[..r.consumed])
    && CommitOnlyAfterSuccess(r.trace)
    && SuccessThenCommit(r.trace)
    // a success left uncommitted is the commit failure that ended the loop
    && (|r.trace| > 0 && r.trace[|r.trace| - 1].Handled? && r.trace[|r.trace| - 1].ok ==>
          r.exit == CommitError(r.trace[|r.trace| - 1].msg))
  }

  /** What a run of the loop over `steps` must look like. */
  ghost predicate Explains(steps: seq<Step>, r: Run) {
    EndsAtFirstExit(steps, r) && TraceFaithful(steps, r)
  }

  /** A step after which the loop goes round again extends a run of the rest
      of the script by that step's events. */
  lemma ExplainsCons(steps: seq<Step>, rest: Run, now: seq<Event>)
    requires |steps| > 0 && Continues(steps[0])
    requires now == if steps[0].handlerOk then [Handled(steps[0].msg, true), Committed(steps[0].msg)]
                    else [Handled(steps[0].msg, false)]
    requires Explains(steps[1..], rest)
    ensures Explains(steps, Run(rest.exit, now + rest.trace, rest.consumed + 1))
  {
    var r := Run(rest.exit, now + rest.trace, rest.consumed + 1);
    var pre := steps[..r.consumed];
    assert pre[0] == steps[0];
    assert pre[1..] == steps[1..][..rest.consumed];
    TraceConcat(now, rest.trace);
    assert Handlings(now) == [(steps[0].msg, steps[0].handlerOk)];
    assert Commits(now) == if steps[0].handlerOk then [steps[0].msg] else [];
    forall i | 0 <= i < r.consumed - 1
      ensures Continues(steps[i])
    {
      if i > 0 {
        assert steps[i] == steps[1..][i - 1];
      }
    }
    if forall i :: 0 <= i < |steps| ==> Continues(steps[i]) {
      assert forall i :: 0 <= i < |steps| - 1 ==> steps[1..][i] == steps[i + 1];
    }
    if !r.exit.Blocked? {
      assert steps[r.consumed - 1] == steps[1..][rest.consumed - 1];
    }
  }

  /** The loop of `Consumer.Listen` over a script of steps. */
  function Listen(steps: seq<Step>): (r: Run)
    ensures Explains(steps, r)
    decreases |steps|
  {
    if |steps| == 0 then Run(Blocked, [], 0)
    else
      match steps[0]
      case FetchFailed(cancelled, cause) =>
        assert steps[..1] == [steps[0]];
        Run(if cancelled then Stopped else FetchError(cause), [], 1)
      case Fetched(msg, handlerOk, commitOk) =>
        if handlerOk && !commitOk then
          assert steps[..1] == [steps[0]];
          Run(CommitError(msg), [Handled(msg, true)], 1)
        else
          var rest := Listen(steps[1..]);
          var now := if handlerOk then [Handled(msg, true), Committed(msg)] else [Handled(msg, false)];
          ExplainsCons(steps, rest, now);
          Run(rest.exit, now + rest.trace, rest.consumed + 1)
  }

  /** `a` sits inside `b` at the strictly increasing positions `idx`. */
  ghost predicate SubsequenceAt<T>(a: seq<T>, b: seq<T>, idx: seq<int>) {
    && |idx| == |a|
    && (forall j :: 0 <= j < |idx| ==> 0 <= idx[j] < |b| && a[j] == b[idx[j]])
    && (forall j, k :: 0 <= j < k < |idx| ==> idx[j] < idx[k])
  }

  function Shift(idx: seq<int>): (r: seq<int>)
    ensures |r| == |idx| && forall j :: 0 <= j < |idx| ==> r[j] == idx[j] + 1
  {
    if |idx| == 0 then [] else [idx[0] + 1] + Shift(idx[1..])
  }

  lemma SubsequenceSkip<T>(a: seq<T>, b: seq<T>, idx: seq<int>, x: T)
    requires SubsequenceAt(a, b, idx)
    ensures SubsequenceAt(a, [x] + b, Shift(idx))
  {
    var b' := [x] + b;
    forall j | 0 <= j < |idx|
      ensures 0 <= Shift(idx)[j] < |b'| && a[j] == b'[Shift(idx)[j]]
    {
      assert b'[idx[j] + 1] == b[idx[j]];
    }
  }

  lemma SubsequenceTake<T>(a: seq<T>, b: seq<T>, idx: seq<int>, x: T)
    requires SubsequenceAt(a, b, idx)
    ensures SubsequenceAt([x] + a, [x] + b, [0] + Shift(idx))
  {
    SubsequenceSkip(a, b, idx, x);
    var a', b', idx' := [x] + a, [x] + b, [0] + Shift(idx);
    forall j | 0 < j < |idx'|
      ensures 0 <= idx'[j] < |b'| && a'[j] == b'[idx'[j]]
    {
      assert idx'[j] == Shift(idx)[j - 1] && a'[j] == a[j - 1];
    }
    forall j, k | 0 <= j < k < |idx'|
      ensures idx'[j] < idx'[k]
    {
      if j > 0 {
        assert idx'[j] == Shift(idx)[j - 1] && idx'[k] == Shift(idx)[k - 1];
      }
    }
  }

  /** The messages whose handler and commit call succeeded are a subsequence
      of the fetched messages, in fetch order. */
  lemma {:induction false} AcknowledgedIsSubsequence(steps: seq<Step>)
    ensures exists idx :: SubsequenceAt(Acknowledged(steps), Fetches(steps), idx)
  {
    if |steps| == 0 {
      assert SubsequenceAt(Acknowledged(steps), Fetches(steps), []);
    } else {
      AcknowledgedIsSubsequence(steps[1..]);
      var a, b := Acknowledged(steps[1..]), Fetches(steps[1..]);
      var idx :| SubsequenceAt(a, b, idx);
      var s0 := steps[0];
      if !s0.Fetched? {
        assert Acknowledged(steps) == a && Fetches(steps) == b;
        assert SubsequenceAt(Acknowledged(steps), Fetches(steps), idx);
      } else if s0.handlerOk && s0.commitOk {
        assert Acknowledged(steps) == [s0.msg] + a && Fetches(steps) == [s0.msg] + b;
        SubsequenceTake(a, b, idx, s0.msg);
      } else {
        assert Acknowledged(steps) == a && Fetches(steps) == [s0.msg] + b;
        SubsequenceSkip(a, b, idx, s0.msg);
      }
    }
  }

  /** The messages of a list of handler calls, in order. */
  function Firsts(s: seq<(Message, bool)>): (r: seq<Message>)
    ensures |r| == |s| && forall i :: 0 <= i < |s| ==> r[i] == s[i].0
  {
    if |s| == 0 then [] else [s[0].0] + Firsts(s[1..])
  }

  /** The handler is handed exactly the fetched messages. */
  lemma {:induction false} DeliveriesAreFetches(steps: seq<Step>)
    ensures Firsts(Deliveries(steps)) == Fetches(steps)
  {
    if |steps| > 0 {
      DeliveriesAreFetches(steps[1..]);
      if steps[0].Fetched? {
        var d := Deliveries(steps[1..]);
        assert Deliveries(steps) == [(steps[0].msg, steps[0].handlerOk)] + d;
        assert Firsts(Deliveries(steps)) == [steps[0].msg] + Firsts(d);
      }
    }
  }

  /** In every run of the loop, the messages it committed are a subsequence
      of the messages it handed to the handler, in the order they were
      handled. */
  lemma CommitsAreSubsequenceOfHandled(steps: seq<Step>)
    ensures exists idx :: SubsequenceAt(Commits(Listen(steps).trace), Firsts(Handlings(Listen(steps).trace)), idx)
  {
    var r := Listen(steps);
    var done := steps[..r.consumed];
    AcknowledgedIsSubsequence(done);
    DeliveriesAreFetches(done);
    var idx :| SubsequenceAt(Acknowledged(done), Fetches(done), idx);
    assert SubsequenceAt(Commits(r.trace), Firsts(Handlings(r.trace)), idx);
  }

  /** Listen returns nil exactly when the loop ended on a fetch that failed
      after cancellation, and returns an error on a fetch failure with a live
      context or on a failed commit. */
  lemma ListenExit(steps: seq<Step>, n: nat)
    requires n < |steps|
    requires forall i :: 0 <= i < n ==> Continues(steps[i])
    requires !Continues(steps[n])
    ensures Listen(steps).consumed == n + 1
    ensures steps[n].FetchFailed? && steps[n].cancelled ==> Listen(steps).exit == Stopped
    ensures steps[n].FetchFailed? && !steps[n].cancelled ==> Listen(steps).exit == FetchError(steps[n].cause)
    ensures steps[n].Fetched? ==> Listen(steps).exit == CommitError(steps[n].msg)
  {
    var r := Listen(steps);
    FirstExitAt(steps, r, n);
  }

  /** A run that ends at its first exit ends at step `n` when `n` is the
      first step that does not continue the loop. */
  lemma FirstExitAt(steps: seq<Step>, r: Run, n: nat)
    requires EndsAtFirstExit(steps, r)
    requires n < |steps|
    requires forall i :: 0 <= i < n ==> Continues(steps[i])
    requires !Continues(steps[n])
    ensures r.consumed == n + 1 && r.exit == ExitFor(steps[n])
  {
    assert !r.exit.Blocked?;
    var c := r.consumed;
    assert 0 < c && !Continues(steps[c - 1]) by {
      assert r.exit == ExitFor(steps[c - 1]);
    }
  }

  /** A failing handler neither commits nor ends the loop: the run is the
      run of the rest of the script after one uncommitted handler call. */
  lemma HandlerFailureSkipsCommit(steps: seq<Step>)
    requires |steps| > 0 && steps[0].Fetched? && !steps[0].handlerOk
    ensures Listen(steps).exit == Listen(steps[1..]).exit
    ensures Listen(steps).trace == [Handled(steps[0].msg, false)] + Listen(steps[1..]).trace
    ensures Commits(Listen(steps).trace) == Commits(Listen(steps[1..]).trace)
  {
    CommitsConcat([Handled(steps[0].msg, false)], Listen(steps[1..]).trace);
  }
}
