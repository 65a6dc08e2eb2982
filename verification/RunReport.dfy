/**
  * The Python harness's run loop, whose children may answer anything, and the two checks its report
  * must pass: the worker's account of the cases, and the verdict drawn from it. An exception the loop
  * does not catch leaves no report; which replies cause one is stated exactly.
  */
module RunReport {
  import opened Comparison
  import opened DecimalText
  import opened Floats
  import opened JsonDepth
  import opened JsonValues
  import opened RunTimes
  import opened SharedDoubles
  import opened UnorderedPython
  import Words
  import opened Wrappers

  datatype Status = Passed | WrongAnswer | RuntimeError | TimeLimit | MemoryLimit | JudgeError

  // `runtime` is missing only until the run fills it in for a case stopped at its limit.
  datatype Row = Row(id: int, status: Status, runtime: Option<Time>)

  // A problem's time limit in milliseconds, as checked when it is loaded.
  type Limit = n: int | 0 < n <= 30_000 witness 1

  const NO_TIME := Some(Whole(0))

  // The child's own word for how a case ended; anything else counts as a returned value.
  datatype ReplyStatus = Crashed | Hung | OverTime | Raised | ProbeError | Returned

  // Whether `str()` of the reply's output and error fields ends, or recurses too deeply.
  datatype Texts = Readable | ErrorTooDeep | OutputTooDeep

  /** A reply, as parsed: its `runtime_ms` may be missing or any JSON value, and so may the probe results. */
  datatype Reply = Reply(status: ReplyStatus, runtime: Option<Json>, texts: Texts, actual: PyJson,
                         probeResults: Option<Json>)

  /** What comes through the result pipe within the deadline. */
  datatype Frame =
    | Silence
    | Closed
    | Unreadable                 // no JSON object
    | Undecodable                // not even text: reading it raises
    | Framed(reply: Reply)

  // What the author's validator says, when it is asked.
  datatype ValidatorVerdict = Accepts | Refuses | OutOfTime | Faults

  datatype Judging = FixedAnswer(mode: Mode) | Validated(operations: bool)

  // `probes` is how many results the case's probes make, when it lists any.
  datatype Case = Case(id: int, expected: PyJson, probes: Option<nat>)

  /** Replies after which the child is not trusted with another case. */
  predicate Fatal(reply: Reply) {
    reply.status == Hung || reply.status == Crashed || reply.status == OverTime
  }

  // ----- one row -----

  /** `_number_or_zero`: a finite number or the integer zero; an integer too large for a double raises. */
  function NumberOrZero(x: Option<Json>): Option<Time> {
    if x.None? || !IsNumber(x.value) then NO_TIME
    else
      var f := AsFloat(x.value);
      if f.None? then None
      else if x.value.Int? then Some(Whole(x.value.n))
      else if f.value.NaN? || f.value.Inf? then NO_TIME
      else Some(Fraction(f.value))
  }

  /** Probes are only sent, and their results only asked for, when a validator judges an operations problem. */
  function Probes(tc: Case, judging: Judging): Option<nat> {
    if judging.Validated? && judging.operations then tc.probes else None
  }

  predicate AccountsForProbes(reply: Reply, probes: Option<nat>) {
    probes.Some? ==>
      reply.probeResults.Some? && reply.probeResults.value.Arr? && |reply.probeResults.value.items| == probes.value
  }

  predicate NestsTooDeep(reply: Reply, probes: Option<nat>) {
    || Depth(reply.actual) > MAX_NESTING
    || (probes.Some? && reply.probeResults.Some? && Depth(reply.probeResults.value) > MAX_NESTING)
  }

  datatype Finalized = Made(row: Row) | RaisesRecursion | RaisesOther

  /** `_finalize`. */
  function Finalize(tc: Case, reply: Reply, judging: Judging, verdict: ValidatorVerdict): Finalized {
    var runtime := NumberOrZero(reply.runtime);
    if runtime.None? then RaisesOther
    else if reply.texts != Readable then RaisesRecursion
    else
      match reply.status
      case Crashed => Made(Row(tc.id, RuntimeError, NO_TIME))
      case Hung => Made(Row(tc.id, TimeLimit, None))
      case OverTime => Made(Row(tc.id, TimeLimit, None))
      case Raised => Made(Row(tc.id, RuntimeError, runtime))
      case ProbeError =>
        if Probes(tc, judging).Some? then Made(Row(tc.id, JudgeError, runtime))
        else Judged(tc, reply, runtime, judging, verdict)
      case Returned => Judged(tc, reply, runtime, judging, verdict)
  }

  function Judged(tc: Case, reply: Reply, runtime: Option<Time>, judging: Judging, verdict: ValidatorVerdict)
    : Finalized
  {
    if NestsTooDeep(reply, Probes(tc, judging)) then Made(Row(tc.id, RuntimeError, runtime))
    else
      match judging
      case Validated(_) =>
        if !AccountsForProbes(reply, Probes(tc, judging)) then Made(Row(tc.id, RuntimeError, runtime))
        else Made(match verdict
                  case Accepts => Row(tc.id, Passed, runtime)
                  case Refuses => Row(tc.id, WrongAnswer, runtime)
                  case OutOfTime => Row(tc.id, TimeLimit, None)
                  case Faults => Row(tc.id, JudgeError, runtime))
      case FixedAnswer(mode) =>
        var equal := Compare(reply.actual, tc.expected, mode);
        if equal.None? then RaisesOther
        else Made(Row(tc.id, if equal.value then Passed else WrongAnswer, runtime))
  }

  /**
    * The row `run` makes of a reply, if no exception ends the run. Only a RecursionError is caught, and
    * catching it reads the output field again.
    */
  function RowOf(tc: Case, reply: Reply, judging: Judging, verdict: ValidatorVerdict): Option<Row> {
    match Finalize(tc, reply, judging, verdict)
    case Made(row) => Some(row)
    case RaisesOther => None
    case RaisesRecursion =>
      if reply.texts == OutputTooDeep then None else Some(Row(tc.id, RuntimeError, NumberOrZero(reply.runtime)))
  }

  // ----- what a row means -----

  /** Only an operations problem's validator is sent probes, and only by a case that has some. */
  predicate Probed(tc: Case, judging: Judging) {
    judging.Validated? && judging.operations && tc.probes.Some?
  }

  /** The reply claims a returned value; a probe error counts as one where there are no probes. */
  predicate ClaimsValue(tc: Case, reply: Reply, judging: Judging) {
    reply.texts == Readable && (reply.status == Returned || (reply.status == ProbeError && !Probed(tc, judging)))
  }

  /** The value is judged: it is not nested too deeply, and every probe's result is there. */
  predicate IsJudged(tc: Case, reply: Reply, judging: Judging) {
    && ClaimsValue(tc, reply, judging) && Depth(reply.actual) <= MAX_NESTING
    && (Probed(tc, judging) ==>
          && reply.probeResults.Some? && reply.probeResults.value.Arr?
          && |reply.probeResults.value.items| == tc.probes.value
          && Depth(reply.probeResults.value) <= MAX_NESTING)
  }

  /** The value claimed is what the mode means by right, or the validator accepts it. */
  ghost predicate IsRight(tc: Case, reply: Reply, judging: Judging, verdict: ValidatorVerdict) {
    && IsJudged(tc, reply, judging)
    && match judging
       case FixedAnswer(mode) => Meets(reply.actual, tc.expected, mode)
       case Validated(_) => verdict == Accepts
  }

  /** The replies whose row cannot be made. */
  ghost predicate EndsRun(tc: Case, reply: Reply, judging: Judging) {
    || (reply.runtime.Some? && Oversized(reply.runtime.value))
    || reply.texts == OutputTooDeep
    || (&& IsJudged(tc, reply, judging) && judging.FixedAnswer? && judging.mode.FloatTolerance?
        && Raises(reply.actual, tc.expected, judging.mode.epsilon))
  }

  /** A passing row needs a returned value that is right. */
  lemma PassesOnlyWhenRight(tc: Case, reply: Reply, judging: Judging, verdict: ValidatorVerdict)
    ensures var row := RowOf(tc, reply, judging, verdict);
            && (row.None? <==> EndsRun(tc, reply, judging))
            && (row.Some? && row.value.status == Passed <==>
                  !EndsRun(tc, reply, judging) && IsRight(tc, reply, judging, verdict))
            && (row.Some? && row.value.status == Passed ==> !Fatal(reply))
  {
    hide Compare, Raises, Meets, Depth, Round, PyValid;
    if judging.FixedAnswer? {
      CompareDecides(reply.actual, tc.expected, judging.mode);
    }
  }

  /** The verdict on a case that is no pass, whose row is made: it says what went wrong. */
  lemma FailuresMean(tc: Case, reply: Reply, judging: Judging, verdict: ValidatorVerdict)
    requires !EndsRun(tc, reply, judging)
    ensures RowOf(tc, reply, judging, verdict).Some?
    ensures var row, judged := RowOf(tc, reply, judging, verdict).value, IsJudged(tc, reply, judging);
            && (row.status == WrongAnswer <==>
                  && judged
                  && if judging.FixedAnswer? then !Meets(reply.actual, tc.expected, judging.mode)
                     else verdict == Refuses)
            && (row.status == TimeLimit <==>
                  || (reply.texts == Readable && (reply.status == Hung || reply.status == OverTime))
                  || (judged && judging.Validated? && verdict == OutOfTime))
            && (row.status == JudgeError <==>
                  || (reply.texts == Readable && reply.status == ProbeError && Probed(tc, judging))
                  || (judged && judging.Validated? && verdict == Faults))
            && (row.status == RuntimeError <==>
                  || reply.texts == ErrorTooDeep
                  || (reply.texts == Readable && (reply.status == Crashed || reply.status == Raised))
                  || (ClaimsValue(tc, reply, judging) && !judged))
            && row.status != MemoryLimit
  {
    hide Compare, Raises, Meets, Depth, Round, PyValid;
    if judging.FixedAnswer? {
      CompareDecides(reply.actual, tc.expected, judging.mode);
    }
  }

  /** A claim of a finite number. */
  predicate ClaimsTime(reply: Reply) {
    reply.runtime.Some? && (reply.runtime.value.Int? || (reply.runtime.value.Num? && IsFinite(reply.runtime.value.x)))
  }

  /**
    * A row's time is the finite number claimed, kept an integer or a float, and zero when anything else is
    * claimed; a crash has none, and a case stopped at its limit gets that.
    */
  lemma TimesMean(tc: Case, reply: Reply, judging: Judging, verdict: ValidatorVerdict, limit: Limit)
    requires !EndsRun(tc, reply, judging)
    ensures RowOf(tc, reply, judging, verdict).Some?
    ensures var row := Filled(RowOf(tc, reply, judging, verdict).value, limit);
            row.id == tc.id
            && if row.status == TimeLimit then row.runtime == Some(Whole(limit))
               else if !ClaimsTime(reply) || (reply.texts == Readable && reply.status == Crashed) then
                 row.runtime == Some(Whole(0))
               else
                 row.runtime.Some?
                 && match row.runtime.value
                    case Whole(n) => reply.runtime == Some(Int(n))
                    case Fraction(x) => reply.runtime == Some(Num(x))
  {
    hide Compare, Raises, Meets, Depth, Round, PyValid;
    if judging.FixedAnswer? {
      CompareDecides(reply.actual, tc.expected, judging.mode);
    }
  }

  // ----- the run -----

  datatype Start = Started | Refused | StartRaises

  /**
    * What becomes of one case: how starting a child for it goes, if one must be started, whether the case
    * can be written to the child, what comes back, and what a validator would say of it.
    */
  datatype Exchange = Exchange(start: Start, sends: bool, frame: Frame, verdict: ValidatorVerdict)

  /** What was tried for one case: no child would start, something raised, or child `child` replied. */
  datatype Attempt = NoChild | Broke | Answered(child: nat, reply: Reply, verdict: ValidatorVerdict)

  /** A missing or unreadable frame becomes the parent's own reply; bytes that are no text raise. */
  function Read(frame: Frame): Option<Reply> {
    match frame
    case Silence => Some(Reply(Hung, None, Readable, Null, None))
    case Closed => Some(Reply(Crashed, None, Readable, Null, None))
    case Unreadable => Some(Reply(Crashed, None, Readable, Null, None))
    case Undecodable => None
    case Framed(reply) => Some(reply)
  }

  function Ask(x: Exchange, child: nat): Attempt {
    var reply := Read(x.frame);
    if !x.sends || reply.None? then Broke else Answered(child, reply.value, x.verdict)
  }

  /** The row of an attempt, with the limit as the time of a case stopped at it. */
  function RowFor(tc: Case, a: Attempt, judging: Judging, limit: Limit): Option<Row> {
    match a
    case NoChild => Some(Row(tc.id, RuntimeError, NO_TIME))
    case Broke => None
    case Answered(_, reply, verdict) =>
      var row := RowOf(tc, reply, judging, verdict);
      if row.None? then None else Some(Filled(row.value, limit))
  }

  function Filled(row: Row, limit: Limit): Row {
    if row.status == TimeLimit && row.runtime.None? then row.(runtime := Some(Whole(limit))) else row
  }

  /** What ends a run without a report: starting, writing or reading raises, or the reply does. */
  ghost predicate Breaks(tc: Case, a: Attempt, judging: Judging) {
    a.Broke? || (a.Answered? && EndsRun(tc, a.reply, judging))
  }

  lemma SmallFits(n: nat)
    requires n <= 30_000
    ensures !TooLarge(Whole(n))
  {
    hide Round;
    SmallRounds(n);
  }

  lemma RowIsFilled(tc: Case, a: Attempt, judging: Judging, limit: Limit)
    ensures var row := RowFor(tc, a, judging, limit);
            && (row.None? <==> Breaks(tc, a, judging))
            && (row.Some? ==> row.value.id == tc.id && row.value.runtime.Some? && !TooLarge(row.value.runtime.value))
  {
    hide Compare, Raises, Meets, Depth, Round, PyValid;
    SmallFits(0);
    SmallFits(limit);
    if a.Answered? {
      PassesOnlyWhenRight(tc, a.reply, judging, a.verdict);
    }
  }

  /** No child is sent a case after one that it hung, crashed or ran out of time on. */
  predicate FreshAfterFatal(attempts: seq<Attempt>) {
    forall i, j ::
      (0 <= i < j < |attempts| && attempts[i].Answered? && attempts[j].Answered?
        && attempts[i].child == attempts[j].child) ==> !Fatal(attempts[i].reply)
  }

  ghost predicate NoneBreaks(cases: seq<Case>, attempts: seq<Attempt>, judging: Judging)
    requires |attempts| <= |cases|
  {
    forall i :: 0 <= i < |attempts| ==> !Breaks(cases[i], attempts[i], judging)
  }

  /** The rows are those of the attempts, in the order of the cases, cut only by an early stop. */
  predicate Reports(rows: seq<Row>, cases: seq<Case>, attempts: seq<Attempt>, judging: Judging, stop: bool,
                    limit: Limit)
  {
    && |rows| == |attempts| <= |cases|
    && (forall i :: 0 <= i < |rows| ==> RowFor(cases[i], attempts[i], judging, limit) == Some(rows[i]))
    && (|rows| < |cases| ==> stop && rows != [] && rows[|rows| - 1].status != Passed)
    && (stop ==> forall i :: 0 <= i < |rows| - 1 ==> rows[i].status == Passed)
  }

  function Ids(cases: seq<Case>): seq<int> {
    if cases == [] then [] else [cases[0].id] + Ids(cases[1..])
  }

  lemma {:induction false} IdsAt(cases: seq<Case>)
    ensures |Ids(cases)| == |cases| && forall i :: 0 <= i < |cases| ==> Ids(cases)[i] == cases[i].id
  {
    if cases != [] { IdsAt(cases[1..]); }
  }

  /** After an attempt with this row the run is over: it raised, or it stops at its first failure. */
  predicate Last(row: Option<Row>, stop: bool) {
    row.None? || (stop && row.value.status != Passed)
  }

  /** The attempt made for a case with `child` running, if any, and `next` the number of the next one. */
  function AttemptOf(x: Exchange, child: Option<nat>, next: nat): Attempt {
    if child.Some? then Ask(x, child.value)
    else match x.start
         case Started => Ask(x, next)
         case Refused => NoChild
         case StartRaises => Broke
  }

  /** The child left running after an attempt, and the number of the next one. */
  function ChildAfter(a: Attempt): Option<nat> {
    if a.Answered? && !Fatal(a.reply) then Some(a.child) else None
  }

  function NextAfter(x: Exchange, child: Option<nat>, next: nat): nat {
    if child.None? && x.start == Started then next + 1 else next
  }

  /** What is tried for the cases from `i` on. */
  function Attempts(cases: seq<Case>, xs: seq<Exchange>, judging: Judging, stop: bool, i: nat, child: Option<nat>,
                    next: nat): (r: seq<Attempt>)
    requires |cases| == |xs| && i <= |cases|
    decreases |cases| - i
  {
    if i == |cases| then []
    else
      var a := AttemptOf(xs[i], child, next);
      [a] + (if Last(RowFor(cases[i], a, judging, 1), stop) then []
             else Attempts(cases, xs, judging, stop, i + 1, ChildAfter(a), NextAfter(xs[i], child, next)))
  }

  /** A new child is started after every fatal reply, so no child is asked again after one. */
  lemma {:induction false} AttemptsAreFresh(cases: seq<Case>, xs: seq<Exchange>, judging: Judging, stop: bool, i: nat,
                                            child: Option<nat>, next: nat)
    requires |cases| == |xs| && i <= |cases| && (child.Some? ==> child.value < next)
    ensures var r := Attempts(cases, xs, judging, stop, i, child, next);
            && FreshAfterFatal(r)
            && forall k :: 0 <= k < |r| && r[k].Answered? ==>
                 r[k].child >= next || (child.Some? && r[k].child == child.value)
    decreases |cases| - i
  {
    hide RowFor;
    if i < |cases| {
      var a := AttemptOf(xs[i], child, next);
      AttemptsAreFresh(cases, xs, judging, stop, i + 1, ChildAfter(a), NextAfter(xs[i], child, next));
    }
  }

  /** An attempt is what its exchange makes it, on the child still running or on a new one. */
  predicate Follows(a: Attempt, x: Exchange, running: Option<nat>) {
    && (a.NoChild? <==> running.None? && x.start == Refused)
    && (a.Broke? <==>
          || (running.None? && x.start == StartRaises)
          || ((running.Some? || x.start == Started) && (!x.sends || x.frame.Undecodable?)))
    && (a.Answered? ==>
          && (running.Some? ==> a.child == running.value)
          && a.verdict == x.verdict
          && (x.frame.Framed? ==> a.reply == x.frame.reply)
          && (x.frame.Silence? ==> a.reply.status == Hung && a.reply.texts == Readable)
          && (x.frame.Closed? || x.frame.Unreadable? ==> a.reply.status == Crashed && a.reply.texts == Readable))
  }

  /** The child that the attempts before have left running. */
  function Running(r: seq<Attempt>, k: nat, child: Option<nat>): Option<nat>
    requires k <= |r|
  {
    if k == 0 then child
    else if r[k - 1].Answered? && r[k - 1].reply.status != Hung && r[k - 1].reply.status != Crashed
            && r[k - 1].reply.status != OverTime then Some(r[k - 1].child)
    else None
  }

  /** A child answers one case after another until it hangs, crashes or runs out of time on one. */
  lemma {:induction false} AttemptsFollow(cases: seq<Case>, xs: seq<Exchange>, judging: Judging, stop: bool, i: nat,
                                          child: Option<nat>, next: nat)
    requires |cases| == |xs| && i <= |cases|
    ensures var r := Attempts(cases, xs, judging, stop, i, child, next);
            |r| <= |cases| - i && forall k :: 0 <= k < |r| ==> Follows(r[k], xs[i + k], Running(r, k, child))
    decreases |cases| - i
  {
    hide RowFor, Follows, AttemptOf, ChildAfter, NextAfter, Last, Running;
    if i < |cases| {
      var a := AttemptOf(xs[i], child, next);
      OnlyFollows(a, xs, i, child, next);
      FirstFollows(xs[i], child, next);
      AttemptsFollow(cases, xs, judging, stop, i + 1, ChildAfter(a), NextAfter(xs[i], child, next));
      var rest := Attempts(cases, xs, judging, stop, i + 1, ChildAfter(a), NextAfter(xs[i], child, next));
      OneMoreFollows(a, rest, xs, i, child);
    }
  }

  lemma OnlyFollows(a: Attempt, xs: seq<Exchange>, i: nat, child: Option<nat>, next: nat)
    requires i < |xs| && a == AttemptOf(xs[i], child, next)
    ensures var r := [a] + []; |r| == 1 && Follows(r[0], xs[i], Running(r, 0, child))
  {
    hide Follows;
    FirstFollows(xs[i], child, next);
  }

  lemma OneMoreFollows(a: Attempt, rest: seq<Attempt>, xs: seq<Exchange>, i: nat, child: Option<nat>)
    requires i + |rest| < |xs| && Follows(a, xs[i], child)
    requires forall k :: 0 <= k < |rest| ==> Follows(rest[k], xs[i + 1 + k], Running(rest, k, ChildAfter(a)))
    ensures var r := [a] + rest; forall k :: 0 <= k < |r| ==> Follows(r[k], xs[i + k], Running(r, k, child))
  {
    hide Follows, ChildAfter;
    var r := [a] + rest;
    forall k | 0 < k < |r|
      ensures Follows(r[k], xs[i + k], Running(r, k, child))
    {
      RunningOn(a, rest, k, child);
    }
  }

  lemma RunningOn(a: Attempt, rest: seq<Attempt>, k: nat, child: Option<nat>)
    requires 0 < k <= |rest|
    ensures ([a] + rest)[k] == rest[k - 1]
    ensures Running([a] + rest, k, child) == Running(rest, k - 1, ChildAfter(a))
  {
  }

  lemma FirstFollows(x: Exchange, child: Option<nat>, next: nat)
    ensures Follows(AttemptOf(x, child, next), x, child)
  {
  }

  /** The run goes through every case, or ends right after the first that raises or, stopping early, does not pass. */
  predicate Ends(cases: seq<Case>, i: nat, r: seq<Attempt>, judging: Judging, stop: bool)
    decreases r
  {
    if r == [] then i == |cases|
    else
      && i < |cases|
      && if Last(RowFor(cases[i], r[0], judging, 1), stop) then |r| == 1
         else Ends(cases, i + 1, r[1..], judging, stop)
  }

  lemma {:induction false} AttemptsEnd(cases: seq<Case>, xs: seq<Exchange>, judging: Judging, stop: bool, i: nat,
                                       child: Option<nat>, next: nat)
    requires |cases| == |xs| && i <= |cases|
    ensures Ends(cases, i, Attempts(cases, xs, judging, stop, i, child, next), judging, stop)
    decreases |cases| - i
  {
    hide RowFor;
    if i < |cases| {
      var a := AttemptOf(xs[i], child, next);
      AttemptsEnd(cases, xs, judging, stop, i + 1, ChildAfter(a), NextAfter(xs[i], child, next));
    }
  }

  /** So every attempt but the last made a row and, stopping early, passed; a run cut short was cut by its last. */
  lemma {:induction false} EndsWhere(cases: seq<Case>, i: nat, r: seq<Attempt>, judging: Judging, stop: bool)
    requires Ends(cases, i, r, judging, stop) && i <= |cases|
    ensures |r| <= |cases| - i
    ensures |r| < |cases| - i ==> r != [] && Last(RowFor(cases[i + |r| - 1], r[|r| - 1], judging, 1), stop)
    ensures forall k :: 0 <= k < |r| - 1 ==> !Last(RowFor(cases[i + k], r[k], judging, 1), stop)
    decreases r
  {
    hide RowFor;
    if r != [] && !Last(RowFor(cases[i], r[0], judging, 1), stop) {
      EndsWhere(cases, i + 1, r[1..], judging, stop);
      forall k | 0 <= k < |r| - 1
        ensures !Last(RowFor(cases[i + k], r[k], judging, 1), stop)
      {
        if k > 0 { assert r[1..][k - 1] == r[k]; }
      }
    }
  }

  lemma LimitOnlyFills(tc: Case, a: Attempt, judging: Judging, limit: Limit, stop: bool)
    ensures Last(RowFor(tc, a, judging, limit), stop) <==> Last(RowFor(tc, a, judging, 1), stop)
    ensures RowFor(tc, a, judging, limit).Some? ==>
              RowFor(tc, a, judging, limit).value.status == RowFor(tc, a, judging, 1).value.status
  {
    hide RowOf;
  }

  /** The loop's exchange with a child for one case, starting one first if none is running. */
  method Try(x: Exchange, child: Option<nat>, next: nat) returns (a: Attempt, next': nat)
    ensures a == AttemptOf(x, child, next) && next' == NextAfter(x, child, next)
  {
    var c := next;
    next' := next;
    if child.Some? {
      c := child.value;
    } else {
      if x.start == StartRaises { return Broke, next; }
      if x.start == Refused { return NoChild, next; }
      next' := next + 1;
    }
    if !x.sends { return Broke, next'; }
    var reply := Read(x.frame);
    if reply.None? { return Broke, next'; }
    a := Answered(c, reply.value, x.verdict);
  }

  /** The loop of `run`: any frame, hang, crash or failure to start may come back for any case. */
  method RunCases(cases: seq<Case>, xs: seq<Exchange>, judging: Judging, stop: bool, limit: Limit)
    returns (rows: Option<seq<Row>>, attempts: seq<Attempt>)
    requires |cases| == |xs|
    ensures attempts == Attempts(cases, xs, judging, stop, 0, Some(0), 1)
    ensures FreshAfterFatal(attempts) && |attempts| <= |cases|
    ensures rows.Some? <==> NoneBreaks(cases, attempts, judging)
    ensures rows.Some? ==> Reports(rows.value, cases, attempts, judging, stop, limit)
  {
    hide *;
    var results, raised;
    results, attempts, raised := TryCases(cases, xs, judging, stop, limit);
    AttemptsAreFresh(cases, xs, judging, stop, 0, Some(0), 1);
    AttemptsEnd(cases, xs, judging, stop, 0, Some(0), 1);
    EndsWhere(cases, 0, attempts, judging, stop);
    if raised {
      LastBreaks(cases, attempts, judging, limit);
      return None, attempts;
    }
    rows := Some(results);
    Complete(cases, attempts, results, judging, stop, limit);
  }

  lemma LastBreaks(cases: seq<Case>, attempts: seq<Attempt>, judging: Judging, limit: Limit)
    requires 0 < |attempts| <= |cases|
    requires RowFor(cases[|attempts| - 1], attempts[|attempts| - 1], judging, limit) == None
    ensures !NoneBreaks(cases, attempts, judging)
  {
    hide RowFor, Breaks;
    RowIsFilled(cases[|attempts| - 1], attempts[|attempts| - 1], judging, limit);
  }

  /** Case by case, until one raises, a failure stops the run, or none is left. */
  method TryCases(cases: seq<Case>, xs: seq<Exchange>, judging: Judging, stop: bool, limit: Limit)
    returns (results: seq<Row>, attempts: seq<Attempt>, raised: bool)
    requires |cases| == |xs|
    ensures attempts == Attempts(cases, xs, judging, stop, 0, Some(0), 1)
    ensures Matches(cases, attempts, results, judging, limit)
    ensures raised ==>
              attempts != [] && RowFor(cases[|attempts| - 1], attempts[|attempts| - 1], judging, limit) == None
    ensures !raised ==> |results| == |attempts|
  {
    hide Attempts, AttemptOf, RowFor, NextAfter, ChildAfter, Last;
    results, attempts, raised := [], [], false;
    var next, child: Option<nat> := 1, Some(0);
    var i := 0;
    var ended := false;
    ghost var all := Attempts(cases, xs, judging, stop, 0, Some(0), 1);
    assert [] + all == all;
    while i < |cases| && !ended
      invariant i == |attempts| <= |cases| && |results| == if raised then i - 1 else i
      invariant raised ==> ended && i > 0 && RowFor(cases[i - 1], attempts[i - 1], judging, limit) == None
      invariant Matches(cases, attempts, results, judging, limit)
      invariant all == attempts + (if ended then [] else Attempts(cases, xs, judging, stop, i, child, next))
      decreases |cases| - i
    {
      AttemptsStep(cases, xs, judging, stop, i, child, next);
      ghost var before := attempts;
      var a, later := Try(xs[i], child, next);
      var row := RowFor(cases[i], a, judging, limit);
      LimitOnlyFills(cases[i], a, judging, limit, stop);
      attempts := attempts + [a];
      ended := Last(row, stop);
      if row.None? {
        LastOfNone(row, stop);
        raised := true;
      } else {
        results := results + [row.value];
      }
      child, next := ChildAfter(a), later;
      i := i + 1;
      Regroup(before, [a], if ended then [] else Attempts(cases, xs, judging, stop, i, child, next));
    }
    if i == |cases| { AttemptsDone(cases, xs, judging, stop, child, next); }
    assert attempts + [] == attempts;
  }

  lemma LastOfNone(row: Option<Row>, stop: bool)
    requires row.None?
    ensures Last(row, stop)
  {
  }

  /** The rows so far are those of the attempts so far. */
  predicate Matches(cases: seq<Case>, attempts: seq<Attempt>, results: seq<Row>, judging: Judging, limit: Limit) {
    && |results| <= |attempts| <= |cases|
    && forall k :: 0 <= k < |results| ==> RowFor(cases[k], attempts[k], judging, limit) == Some(results[k])
  }

  lemma Complete(cases: seq<Case>, attempts: seq<Attempt>, results: seq<Row>, judging: Judging, stop: bool,
                 limit: Limit)
    requires |results| == |attempts| && Matches(cases, attempts, results, judging, limit)
    requires |attempts| < |cases| ==>
               attempts != [] && Last(RowFor(cases[|attempts| - 1], attempts[|attempts| - 1], judging, 1), stop)
    requires forall k :: 0 <= k < |attempts| - 1 ==> !Last(RowFor(cases[k], attempts[k], judging, 1), stop)
    ensures NoneBreaks(cases, attempts, judging) && Reports(results, cases, attempts, judging, stop, limit)
  {
    hide RowFor, Breaks;
    forall k | 0 <= k < |attempts|
      ensures !Breaks(cases[k], attempts[k], judging)
      ensures k < |attempts| - 1 && stop ==> results[k].status == Passed
    {
      RowIsFilled(cases[k], attempts[k], judging, limit);
      LimitOnlyFills(cases[k], attempts[k], judging, limit, stop);
    }
    if |attempts| < |cases| {
      var n := |attempts| - 1;
      LimitOnlyFills(cases[n], attempts[n], judging, limit, stop);
    }
  }

  lemma AttemptsDone(cases: seq<Case>, xs: seq<Exchange>, judging: Judging, stop: bool, child: Option<nat>, next: nat)
    requires |cases| == |xs|
    ensures Attempts(cases, xs, judging, stop, |cases|, child, next) == []
  {
  }

  lemma AttemptsStep(cases: seq<Case>, xs: seq<Exchange>, judging: Judging, stop: bool, i: nat, child: Option<nat>,
                     next: nat)
    requires |cases| == |xs| && i < |cases|
    ensures var a := AttemptOf(xs[i], child, next);
            Attempts(cases, xs, judging, stop, i, child, next)
            == [a] + (if Last(RowFor(cases[i], a, judging, 1), stop) then []
                      else Attempts(cases, xs, judging, stop, i + 1, ChildAfter(a), NextAfter(xs[i], child, next)))
  {
  }

  lemma Regroup(a: seq<Attempt>, b: seq<Attempt>, c: seq<Attempt>)
    ensures a + (b + c) == a + b + c
  {
  }

  /** The run gets past its set-up: the validator loads and a first child starts. */
  predicate SetsUp(validatorLoads: bool, first: Start) {
    validatorLoads && first == Started
  }

  /** The whole run: a validator that won't load or a child that won't start is one row for the first case. */
  method Run(cases: seq<Case>, validatorLoads: bool, first: Start, xs: seq<Exchange>, judging: Judging, stop: bool,
             limit: Limit) returns (rows: Option<seq<Row>>, attempts: seq<Attempt>)
    requires |cases| == |xs|
    ensures !SetsUp(validatorLoads, first) ==> attempts == []
    ensures !SetsUp(validatorLoads, first) ==>
              rows ==
              if validatorLoads && first == StartRaises then None
              else Some([Row(if cases == [] then 0 else cases[0].id,
                             if validatorLoads then RuntimeError else JudgeError, NO_TIME)])
    ensures SetsUp(validatorLoads, first) ==>
              && attempts == Attempts(cases, xs, judging, stop, 0, Some(0), 1)
              && FreshAfterFatal(attempts) && |attempts| <= |cases|
              && (rows.Some? <==> NoneBreaks(cases, attempts, judging))
              && (rows.Some? ==> Reports(rows.value, cases, attempts, judging, stop, limit))
  {
    var firstId := if cases == [] then 0 else cases[0].id;
    if !validatorLoads { return Some([Row(firstId, JudgeError, NO_TIME)]), []; }
    match first {
      case StartRaises => return None, [];
      case Refused => return Some([Row(firstId, RuntimeError, NO_TIME)]), [];
      case Started => rows, attempts := RunCases(cases, xs, judging, stop, limit);
    }
  }

  // ----- the worker's check -----

  /** A complete report for the cases sent, or one that ends early on a failure. */
  predicate AccountsFor(rows: seq<Row>, ids: seq<int>) {
    if ids == [] then rows == []
    else
      && rows != [] && |rows| <= |ids|
      && (forall i :: 0 <= i < |rows| ==> rows[i].id == ids[i])
      && (|rows| == |ids| || rows[|rows| - 1].status != Passed)
  }

  /** What lets a run report: nothing raised while it was set up, or for a case it tried. */
  ghost predicate NothingRaised(cases: seq<Case>, validatorLoads: bool, first: Start, attempts: seq<Attempt>,
                          judging: Judging)
    requires |attempts| <= |cases|
  {
    !validatorLoads || (first != StartRaises && (first == Started ==> NoneBreaks(cases, attempts, judging)))
  }

  /** A row carries a time, and one that by itself fits a double. */
  predicate HasTime(row: Row) {
    row.runtime.Some? && !TooLarge(row.runtime.value)
  }

  /** The harness reports on some cases exactly when nothing raised, and the worker then accepts the report. */
  method RunIsAccounted(cases: seq<Case>, validatorLoads: bool, first: Start, xs: seq<Exchange>, judging: Judging,
                        stop: bool, limit: Limit) returns (rows: Option<seq<Row>>, attempts: seq<Attempt>)
    requires |cases| == |xs| && cases != []
    ensures SetsUp(validatorLoads, first) ==> attempts == Attempts(cases, xs, judging, stop, 0, Some(0), 1)
    ensures |attempts| <= |cases|
    ensures rows.Some? <==> NothingRaised(cases, validatorLoads, first, attempts, judging)
    ensures rows.Some? ==>
              && AccountsFor(rows.value, Ids(cases))
              && (forall i :: 0 <= i < |rows.value| ==> HasTime(rows.value[i]))
              && if SetsUp(validatorLoads, first) then Reports(rows.value, cases, attempts, judging, stop, limit)
                 else |rows.value| == 1 && rows.value[0].status != Passed
  {
    hide Attempts, FreshAfterFatal, RowFor, Breaks, TooLarge;
    SmallFits(0);
    rows, attempts := Run(cases, validatorLoads, first, xs, judging, stop, limit);
    IdsAt(cases);
    forall i | 0 <= i < |attempts|
      ensures var row := RowFor(cases[i], attempts[i], judging, limit);
              row.Some? ==> row.value.id == cases[i].id && HasTime(row.value)
    {
      RowIsFilled(cases[i], attempts[i], judging, limit);
    }
  }

  /** One frame that claims 10^400 milliseconds ends the run without a report. */
  lemma HugeRuntimeEndsRun(tc: Case, reply: Reply, child: nat, judging: Judging, verdict: ValidatorVerdict)
    requires reply.runtime == Some(Int(Pow10(HUGE)))
    ensures |Digits(Pow10(HUGE))| == 401 && Breaks(tc, Answered(child, reply, verdict), judging)
  {
    hide Pow10, Digits, Round;
    HugeIsOversized();
  }

  /** So does an honest answer of 10^400 to a case that expects a number up to a tolerance. */
  lemma HugeAnswerEndsRun(tc: Case, reply: Reply, child: nat, epsilon: real, verdict: ValidatorVerdict)
    requires reply.status == Returned && reply.texts == Readable && reply.actual == Int(Pow10(HUGE))
    requires IsNumber(tc.expected)
    ensures Breaks(tc, Answered(child, reply, verdict), FixedAnswer(FloatTolerance(epsilon)))
  {
    hide Pow10, Digits, Round, Raises;
    HugeAnswerRaises(tc.expected, epsilon);
  }

  // ----- the verdict -----

  datatype Container = Container(timedOut: bool, oomKilled: bool, stdoutTruncated: bool)

  datatype VerdictStatus = Accepted | OutputLimit | CaseFailed(status: Status)

  // `time` is the sum of the rows' times, when the rows decided and there are any.
  datatype Verdict = Verdict(status: VerdictStatus, passed: nat, total: nat, time: Option<Total>)

  function CountPassed(rows: seq<Row>): (n: nat)
    ensures n <= |rows|
    ensures n == |rows| <==> forall i :: 0 <= i < |rows| ==> rows[i].status == Passed
  {
    if rows == [] then 0 else
      var n := |rows| - 1;
      CountPassed(rows[..n]) + (if rows[n].status == Passed then 1 else 0)
  }

  /** That is how many rows passed. */
  lemma {:induction false} CountIsSize(rows: seq<Row>)
    ensures CountPassed(rows) == |set i | 0 <= i < |rows| && rows[i].status == Passed|
  {
    if rows != [] {
      var n := |rows| - 1;
      CountIsSize(rows[..n]);
      var before := set i | 0 <= i < n && rows[..n][i].status == Passed;
      var all := set i | 0 <= i < |rows| && rows[i].status == Passed;
      hide CountPassed;
      if rows[n].status == Passed {
        assert all == before + {n};
      } else {
        assert all == before;
      }
      CountOn(rows);
    }
  }

  lemma CountOn(rows: seq<Row>)
    requires rows != []
    ensures var n := |rows| - 1;
            CountPassed(rows) == CountPassed(rows[..n]) + if rows[n].status == Passed then 1 else 0
  {
  }

  predicate FirstFailure(rows: seq<Row>, i: int) {
    0 <= i < |rows| && rows[i].status != Passed && forall k :: 0 <= k < i ==> rows[k].status == Passed
  }

  function Times(rows: seq<Row>): (r: seq<Option<Time>>)
    ensures |r| == |rows|
  {
    seq(|rows|, i requires 0 <= i < |rows| => rows[i].runtime)
  }

  predicate Sound(container: Container) {
    !container.timedOut && !container.oomKilled && !container.stdoutTruncated
  }

  /** What makes the verdict's sum of times raise. */
  ghost predicate TimesRaise(rows: seq<Row>) {
    Clash(Times(rows)) || LateClash(Times(rows))
  }

  /**
    * The first row that did not pass decides, unless the container itself failed. No verdict comes of rows
    * whose times cannot be added up, whatever their statuses: the sum is taken before they are read.
    */
  method Aggregate(container: Container, results: Option<seq<Row>>, total: nat) returns (verdict: Option<Verdict>)
    ensures verdict.None? <==> Sound(container) && results.Some? && TimesRaise(results.value)
    ensures verdict.Some? ==>
              var v := verdict.value;
              && v.total == total
              && (v.status == Accepted <==>
                    && Sound(container) && results.Some?
                    && forall i :: 0 <= i < |results.value| ==> results.value[i].status == Passed)
              && (container.timedOut ==> v.status == CaseFailed(TimeLimit) && v.passed == 0)
              && (!container.timedOut && container.oomKilled ==> v.status == CaseFailed(MemoryLimit) && v.passed == 0)
              && (!container.timedOut && !container.oomKilled && container.stdoutTruncated ==> v.status == OutputLimit)
              && (!container.timedOut && !container.oomKilled ==>
                    v.passed == (if results.Some? then CountPassed(results.value) else 0))
              && (Sound(container) ==>
                    if results.None? then v.status == CaseFailed(JudgeError)
                    else forall i :: FirstFailure(results.value, i) ==>
                           v.status == CaseFailed(results.value[i].status))
    ensures verdict.Some? && verdict.value.time.Some? <==>
              Sound(container) && results.Some? && results.value != [] && !TimesRaise(results.value)
    ensures verdict.Some? && verdict.value.time.Some? && NoFraction(Times(results.value)) ==>
              verdict.value.time == Some(WholeTotal(WholeSum(Times(results.value))))
  {
    hide Times, Clash, LateClash, NoFraction, WholeSum, Sum;
    var list := if results.Some? then results.value else [];
    var passed := 0;
    for i := 0 to |list|
      invariant passed == CountPassed(list[..i])
    {
      assert list[..i + 1][..i] == list[..i];
      if list[i].status == Passed { passed := passed + 1; }
    }
    assert list[..|list|] == list;
    if container.timedOut { return Some(Verdict(CaseFailed(TimeLimit), 0, total, None)); }
    if container.oomKilled { return Some(Verdict(CaseFailed(MemoryLimit), 0, total, None)); }
    if container.stdoutTruncated { return Some(Verdict(OutputLimit, passed, total, None)); }
    if results.None? { return Some(Verdict(CaseFailed(JudgeError), 0, total, None)); }
    var time := SumTimes(Times(list));
    SumRaisesExactly(Times(list));
    if time.None? { return None; }
    var status := FirstStatus(list);
    verdict := Some(Verdict(status, passed, total, if list == [] then None else time));
  }

  /** The status of the first row that did not pass. */
  method FirstStatus(list: seq<Row>) returns (status: VerdictStatus)
    ensures status == Accepted <==> forall i :: 0 <= i < |list| ==> list[i].status == Passed
    ensures status != OutputLimit && forall i :: FirstFailure(list, i) ==> status == CaseFailed(list[i].status)
  {
    status := Accepted;
    for i := 0 to |list|
      invariant status == Accepted && forall k :: 0 <= k < i ==> list[k].status == Passed
    {
      if list[i].status != Passed { return CaseFailed(list[i].status); }
    }
  }

  /** Rows that do not account for the cases are no report at all. */
  function Parsed(rows: Option<seq<Row>>, ids: seq<int>): Option<seq<Row>> {
    if rows.Some? && AccountsFor(rows.value, ids) then rows else None
  }

  /**
    * Without a container fault, accepted means a row for every case, each passed, with times that can be
    * added up, and X/N says N/N. There is no verdict exactly when the rows account for the cases and the
    * times cannot.
    */
  method AcceptedMeansAllPassed(rows: Option<seq<Row>>, ids: seq<int>) returns (v: Option<Verdict>)
    ensures v.None? <==> rows.Some? && AccountsFor(rows.value, ids) && TimesRaise(rows.value)
    ensures v.Some? && v.value.status == Accepted <==>
              && rows.Some? && |rows.value| == |ids|
              && (forall i :: 0 <= i < |ids| ==> rows.value[i].id == ids[i] && rows.value[i].status == Passed)
              && !TimesRaise(rows.value)
    ensures v.Some? && v.value.status == Accepted ==> v.value.passed == v.value.total == |ids|
  {
    hide TimesRaise;
    v := Aggregate(Container(false, false, false), Parsed(rows, ids), |ids|);
  }

  // ----- from replies to the verdict -----

  /** The case was answered with a value that is right. */
  ghost predicate AnsweredRight(tc: Case, a: Attempt, judging: Judging) {
    a.Answered? && !EndsRun(tc, a.reply, judging) && IsRight(tc, a.reply, judging, a.verdict)
  }

  lemma PassingRow(tc: Case, a: Attempt, judging: Judging, limit: Limit)
    ensures var row := RowFor(tc, a, judging, limit);
            && (row.Some? && row.value.status == Passed <==> AnsweredRight(tc, a, judging))
            && (row.None? <==> Breaks(tc, a, judging))
            && (row.Some? ==> row.value.id == tc.id)
  {
    hide IsRight, EndsRun, RowOf;
    RowIsFilled(tc, a, judging, limit);
    if a.Answered? {
      PassesOnlyWhenRight(tc, a.reply, judging, a.verdict);
    }
  }

  /** In a report of the harness, only the integers before the first float matter. */
  lemma ReportTimesRaise(rows: seq<Row>)
    requires forall i :: 0 <= i < |rows| ==> HasTime(rows[i])
    ensures TimesRaise(rows) <==> Clash(Times(rows))
  {
    hide Sum, Clash, LateClash, Oversized;
    SmallFits(0);
    SumRaisesExactly(Times(rows));
    FittingRaises(Times(rows));
  }

  /**
    * A run is accepted exactly when every case was tried and answered right and the times can be added up:
    * the integers before the first float must not come to more than a double holds. If they do, there is no
    * verdict.
    */
  method JudgeRun(cases: seq<Case>, validatorLoads: bool, first: Start, xs: seq<Exchange>, judging: Judging,
                  stop: bool, limit: Limit)
    returns (v: Option<Verdict>, rows: Option<seq<Row>>, attempts: seq<Attempt>)
    requires |cases| == |xs| && cases != []
    ensures SetsUp(validatorLoads, first) ==> attempts == Attempts(cases, xs, judging, stop, 0, Some(0), 1)
    ensures |attempts| <= |cases|
    ensures rows.Some? <==> NothingRaised(cases, validatorLoads, first, attempts, judging)
    ensures rows.Some? ==> AccountsFor(rows.value, Ids(cases))
    ensures rows.Some? && SetsUp(validatorLoads, first) ==>
              Reports(rows.value, cases, attempts, judging, stop, limit)
    ensures v.None? <==> rows.Some? && Clash(Times(rows.value))
    ensures v.Some? && v.value.status == Accepted <==>
              && SetsUp(validatorLoads, first) && |attempts| == |cases|
              && (forall i :: 0 <= i < |cases| ==> AnsweredRight(cases[i], attempts[i], judging))
              && !(rows.Some? && Clash(Times(rows.value)))
    ensures v.Some? && v.value.status == Accepted ==> v.value.passed == v.value.total == |cases|
  {
    hide Attempts, FreshAfterFatal, RowFor, Breaks, AnsweredRight, TimesRaise, Clash, HasTime;
    rows, attempts := RunIsAccounted(cases, validatorLoads, first, xs, judging, stop, limit);
    IdsAt(cases);
    forall i | 0 <= i < |attempts|
      ensures var row := RowFor(cases[i], attempts[i], judging, limit);
              && (row.Some? && row.value.status == Passed <==> AnsweredRight(cases[i], attempts[i], judging))
              && (row.None? <==> Breaks(cases[i], attempts[i], judging))
    {
      PassingRow(cases[i], attempts[i], judging, limit);
    }
    if rows.Some? { ReportTimesRaise(rows.value); }
    v := AcceptedMeansAllPassed(rows, Ids(cases));
  }

  /** The child running from the start answers the case right, claiming this time. */
  ghost predicate AnswersRight(tc: Case, x: Exchange, judging: Judging, time: Json) {
    && x.sends && x.frame.Framed? && x.frame.reply.runtime == Some(time)
    && AnsweredRight(tc, Answered(0, x.frame.reply, x.verdict), judging)
  }

  /** A right answer's row carries the time its frame claims. */
  lemma RightRow(tc: Case, x: Exchange, judging: Judging, time: Json, limit: Limit)
    requires AnswersRight(tc, x, judging, time)
    ensures var a := Answered(0, x.frame.reply, x.verdict);
            && Ask(x, 0) == a && !Fatal(a.reply) && !Breaks(tc, a, judging)
            && RowFor(tc, a, judging, limit) == Some(Row(tc.id, Passed, NumberOrZero(Some(time))))
  {
    hide IsRight, EndsRun, NumberOrZero, RowOf;
    var a := Answered(0, x.frame.reply, x.verdict);
    PassingRow(tc, a, judging, limit);
    PassesOnlyWhenRight(tc, a.reply, judging, a.verdict);
    PassingTime(tc, a.reply, judging, a.verdict);
  }

  lemma PassingTime(tc: Case, reply: Reply, judging: Judging, verdict: ValidatorVerdict)
    requires RowOf(tc, reply, judging, verdict).Some? && RowOf(tc, reply, judging, verdict).value.status == Passed
    ensures RowOf(tc, reply, judging, verdict).value == Row(tc.id, Passed, NumberOrZero(reply.runtime))
  {
    hide NumberOrZero, Compare;
  }

  /** The cases of a run answered right with these times, one after another by the first child. */
  ghost predicate AllAnswerRight(cases: seq<Case>, xs: seq<Exchange>, judging: Judging, times: seq<Json>) {
    && |cases| == |xs| == |times|
    && forall i :: 0 <= i < |cases| ==> AnswersRight(cases[i], xs[i], judging, times[i])
  }

  /** Such a run keeps its first child and tries every case. */
  lemma {:induction false} RightAttempts(cases: seq<Case>, xs: seq<Exchange>, judging: Judging, times: seq<Json>,
                                         stop: bool, i: nat, next: nat)
    requires AllAnswerRight(cases, xs, judging, times) && i <= |cases|
    ensures var r := Attempts(cases, xs, judging, stop, i, Some(0), next);
            && |r| == |cases| - i
            && forall k :: 0 <= k < |r| ==> Ask(xs[i + k], 0) == r[k]
    decreases |cases| - i
  {
    hide AnswersRight, RowFor, Ask;
    if i < |cases| {
      RightRow(cases[i], xs[i], judging, times[i], 1);
      var a := Ask(xs[i], 0);
      assert ChildAfter(a) == Some(0) && AttemptOf(xs[i], Some(0), next) == a;
      assert NextAfter(xs[i], Some(0), next) == next && !Last(RowFor(cases[i], a, judging, 1), stop);
      RightAttempts(cases, xs, judging, times, stop, i + 1, next);
      hide AttemptOf, ChildAfter, NextAfter, Last;
      var rest := Attempts(cases, xs, judging, stop, i + 1, Some(0), next);
      assert Attempts(cases, xs, judging, stop, i, Some(0), next) == [a] + rest;
      hide Attempts;
      RightOnes(xs, i, a, rest);
    }
  }

  lemma RightOnes(xs: seq<Exchange>, i: nat, a: Attempt, rest: seq<Attempt>)
    requires i + 1 + |rest| == |xs| && a == Ask(xs[i], 0)
    requires forall k :: 0 <= k < |rest| ==> Ask(xs[i + 1 + k], 0) == rest[k]
    ensures var r := [a] + rest; forall k :: 0 <= k < |r| ==> Ask(xs[i + k], 0) == r[k]
  {
    hide Ask;
    var r := [a] + rest;
    forall k | 0 < k < |r| ensures Ask(xs[i + k], 0) == r[k] {
      assert Ask(xs[i + 1 + (k - 1)], 0) == rest[k - 1];
    }
  }

  /** So no attempt breaks, every row passes, and the rows carry the times claimed. */
  lemma RightRows(cases: seq<Case>, xs: seq<Exchange>, judging: Judging, times: seq<Json>, attempts: seq<Attempt>)
    requires AllAnswerRight(cases, xs, judging, times) && |attempts| == |cases|
    requires forall k :: 0 <= k < |cases| ==> Ask(xs[k], 0) == attempts[k]
    ensures NoneBreaks(cases, attempts, judging)
    ensures forall limit, k :: 0 <= k < |cases| ==>
              RowFor(cases[k], attempts[k], judging, limit)
              == Some(Row(cases[k].id, Passed, NumberOrZero(Some(times[k]))))
  {
    hide AnswersRight, RowFor, Ask, Breaks, NumberOrZero;
    forall limit: Limit, k | 0 <= k < |cases|
      ensures !Breaks(cases[k], attempts[k], judging)
      ensures RowFor(cases[k], attempts[k], judging, limit)
           == Some(Row(cases[k].id, Passed, NumberOrZero(Some(times[k]))))
    {
      RightRow(cases[k], xs[k], judging, times[k], limit);
    }
    forall k | 0 <= k < |cases| ensures !Breaks(cases[k], attempts[k], judging) {
      RightRow(cases[k], xs[k], judging, times[k], 1);
    }
  }

  lemma HugeTimesAreKept()
    ensures NumberOrZero(Some(Int(Words.Pow2(HALF_RANGE)))) == Some(Whole(Words.Pow2(HALF_RANGE)))
    ensures NumberOrZero(Some(Num(Fin(0.5)))) == Some(Fraction(Fin(0.5)))
  {
    hide Words.Pow2, Round;
    HalfRange();
  }

  /**
    * Three cases answered right, whose frames claim 2^1023, 2^1023 and 0.5 milliseconds: every row passes,
    * the report accounts for the cases, and there is no verdict.
    */
  method HugeTotalHasNoVerdict(cases: seq<Case>, xs: seq<Exchange>, judging: Judging, stop: bool, limit: Limit)
    returns (v: Option<Verdict>, rows: Option<seq<Row>>)
    requires var big := Int(Words.Pow2(HALF_RANGE));
             cases != [] && AllAnswerRight(cases, xs, judging, [big, big, Num(Fin(0.5))])
    ensures rows.Some? && AccountsFor(rows.value, Ids(cases))
    ensures forall i :: 0 <= i < |rows.value| ==> rows.value[i].status == Passed
    ensures v.None?
  {
    hide AnswersRight, Attempts, Clash, AccountsFor, Words.Pow2, RowFor, Breaks, NumberOrZero;
    var attempts;
    v, rows, attempts := JudgeRun(cases, true, Started, xs, judging, stop, limit);
    ghost var big := Int(Words.Pow2(HALF_RANGE));
    ghost var times := [big, big, Num(Fin(0.5))];
    RightAttempts(cases, xs, judging, times, stop, 0, 1);
    RightRows(cases, xs, judging, times, attempts);
    HugeTimesAreKept();
    HugeTimesClash();
    assert Times(rows.value) == [Some(Whole(big.n)), Some(Whole(big.n)), Some(Fraction(Fin(0.5)))];
  }
}
