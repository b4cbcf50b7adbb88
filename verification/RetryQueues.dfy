/** Two coupled retry queues. Text messages that cannot be sent are tried again,
    and every failure stores a warning email, which is tried again in turn. The
    two polling loops run side by side; a step here is one thing that one of
    them does to the outside world or to the database. */
module RetryQueues {
  const SMS_RETRIES := 10
  const EMAIL_RETRIES := 3

  /** retries counts failures; SQL's NULL is 0. */
  datatype Row = Row(retries: nat, closed: bool)

  const NEW_ROW := Row(0, false)

  /** What a polling loop is doing with the first row of its selection: nothing
      yet, recording a success, storing the warning, or recording a failure. */
  datatype Phase = Idle | Closing | Warning | Recording

  datatype State = State(
    sms: seq<Row>, emails: seq<Row>,
    smsQueue: seq<nat>, mailQueue: seq<nat>,
    smsPhase: Phase, mailPhase: Phase,
    posts: nat, sends: nat)

  datatype Step =
    | StoreSms
    | SelectSms(order: seq<nat>)
    | Post(ok: bool)
    | StoreWarning(works: bool)
    | UpdateSms
    | SelectMail(order: seq<nat>)
    | Send(ok: bool)
    | SkipMail
    | UpdateMail

  predicate Open(row: Row, limit: nat) {
    !row.closed && row.retries <= limit
  }

  /** What the select statement returns, in some order. */
  predicate Selection(rows: seq<Row>, limit: nat, order: seq<nat>) {
    && (forall k :: 0 <= k < |order| ==> order[k] < |rows| && Open(rows[order[k]], limit))
    && (forall k, l :: 0 <= k < l < |order| ==> order[k] != order[l])
    && (forall i :: 0 <= i < |rows| && Open(rows[i], limit) ==> i in order)
  }

  function Failed(row: Row): Row {
    row.(retries := row.retries + 1)
  }

  function Recorded(rows: seq<Row>, i: nat, phase: Phase): seq<Row>
    requires i < |rows|
  {
    rows[i := if phase.Closing? then rows[i].(closed := true) else Failed(rows[i])]
  }

  /** One step; a step that is not possible leaves the state as it is. */
  function Apply(s: State, step: Step): State {
    match step
    case StoreSms => s.(sms := s.sms + [NEW_ROW])
    case SelectSms(order) =>
      if !s.smsPhase.Idle? || s.smsQueue != [] || !Selection(s.sms, SMS_RETRIES, order) then s
      else s.(smsQueue := order)
    case Post(ok) =>
      if !s.smsPhase.Idle? || s.smsQueue == [] then s
      else s.(posts := s.posts + 1, smsPhase := if ok then Closing else Warning)
    case StoreWarning(works) =>
      if !s.smsPhase.Warning? then s
      else s.(emails := if works then s.emails + [NEW_ROW] else s.emails, smsPhase := Recording)
    case UpdateSms =>
      if s.smsPhase.Idle? || s.smsPhase.Warning? || s.smsQueue == [] || s.smsQueue[0] >= |s.sms| then s
      else
        var sms := Recorded(s.sms, s.smsQueue[0], s.smsPhase);
        s.(sms := sms, smsQueue := s.smsQueue[1..], smsPhase := Idle)
    case SelectMail(order) =>
      if !s.mailPhase.Idle? || s.mailQueue != [] || !Selection(s.emails, EMAIL_RETRIES, order) then s
      else s.(mailQueue := order)
    case Send(ok) =>
      if !s.mailPhase.Idle? || s.mailQueue == [] then s
      else s.(sends := s.sends + 1, mailPhase := if ok then Closing else Recording)
    case SkipMail =>
      if !s.mailPhase.Idle? || s.mailQueue == [] then s else s.(mailQueue := s.mailQueue[1..])
    case UpdateMail =>
      if s.mailPhase.Idle? || s.mailQueue == [] || s.mailQueue[0] >= |s.emails| then s
      else
        var emails := Recorded(s.emails, s.mailQueue[0], s.mailPhase);
        s.(emails := emails, mailQueue := s.mailQueue[1..], mailPhase := Idle)
  }

  function Run(s: State, steps: seq<Step>): State {
    if steps == [] then s else Apply(Run(s, steps[..|steps| - 1]), steps[|steps| - 1])
  }

  const START := State([], [], [], [], Idle, Idle, 0, 0)

  // ---------- counting what is left ----------

  function TriesLeft(row: Row, limit: nat): nat {
    if Open(row, limit) then limit + 1 - row.retries else 0
  }

  function AllTriesLeft(rows: seq<Row>, limit: nat): nat {
    if rows == [] then 0 else AllTriesLeft(rows[..|rows| - 1], limit) + TriesLeft(rows[|rows| - 1], limit)
  }

  lemma {:induction false} TriesAfter(rows: seq<Row>, limit: nat, i: nat, row: Row)
    requires i < |rows|
    ensures AllTriesLeft(rows[i := row], limit) ==
            AllTriesLeft(rows, limit) - TriesLeft(rows[i], limit) + TriesLeft(row, limit)
    ensures AllTriesLeft(rows, limit) >= TriesLeft(rows[i], limit)
  {
    var n := |rows| - 1;
    if i == n {
      assert rows[i := row][..n] == rows[..n];
    } else {
      assert rows[i := row][..n] == rows[..n][i := row];
      TriesAfter(rows[..n], limit, i, row);
    }
  }

  lemma TriesOfMore(rows: seq<Row>, limit: nat)
    ensures AllTriesLeft(rows + [NEW_ROW], limit) == AllTriesLeft(rows, limit) + limit + 1
  {
    assert (rows + [NEW_ROW])[..|rows|] == rows;
  }

  function Busy(phase: Phase): nat {
    if phase.Idle? then 0 else 1
  }

  /** The selection of a loop lists open rows, each once. */
  ghost predicate QueueValid(rows: seq<Row>, limit: nat, queue: seq<nat>) {
    && (forall k :: 0 <= k < |queue| ==> queue[k] < |rows| && Open(rows[queue[k]], limit))
    && (forall k, l :: 0 <= k < l < |queue| ==> queue[k] != queue[l])
  }

  /** Tries still possible, once what is in flight is recorded. */
  function SmsLeft(s: State): int {
    AllTriesLeft(s.sms, SMS_RETRIES) - Busy(s.smsPhase)
  }

  function MailLeft(s: State): int {
    AllTriesLeft(s.emails, EMAIL_RETRIES) - Busy(s.mailPhase)
  }

  ghost predicate Inv(s: State) {
    && QueueValid(s.sms, SMS_RETRIES, s.smsQueue) && QueueValid(s.emails, EMAIL_RETRIES, s.mailQueue)
    && (s.smsQueue == [] ==> s.smsPhase.Idle?) && (s.mailQueue == [] ==> s.mailPhase.Idle?)
    && !s.mailPhase.Warning?
    && s.posts + SmsLeft(s) <= (SMS_RETRIES + 1) * |s.sms|
    && s.sends + MailLeft(s) <= (EMAIL_RETRIES + 1) * |s.emails|
    && |s.emails| + (if s.smsPhase.Warning? then 1 else 0) <= s.posts
  }

  /** Remaining tries, each post weighing as much as itself and the emails that
      its failure can cause. */
  function Weight(s: State): int {
    (EMAIL_RETRIES + 2) * SmsLeft(s) + MailLeft(s) + if s.smsPhase.Warning? then EMAIL_RETRIES + 1 else 0
  }

  predicate IsAttempt(s: State, step: Step) {
    Apply(s, step).posts > s.posts || Apply(s, step).sends > s.sends
  }

  lemma RecordedQueue(rows: seq<Row>, limit: nat, queue: seq<nat>, phase: Phase)
    requires QueueValid(rows, limit, queue) && queue != []
    ensures QueueValid(Recorded(rows, queue[0], phase), limit, queue[1..])
    ensures AllTriesLeft(Recorded(rows, queue[0], phase), limit) <= AllTriesLeft(rows, limit) - 1
    ensures AllTriesLeft(rows, limit) >= 1
  {
    var i := queue[0];
    var row := if phase.Closing? then rows[i].(closed := true) else Failed(rows[i]);
    TriesAfter(rows, limit, i, row);
    forall k | 0 <= k < |queue[1..]| ensures queue[1..][k] < |rows| && queue[1..][k] != i {
      assert queue[1..][k] == queue[k + 1];
    }
  }

  lemma MoreRowsQueue(rows: seq<Row>, limit: nat, queue: seq<nat>)
    requires QueueValid(rows, limit, queue)
    ensures QueueValid(rows + [NEW_ROW], limit, queue)
  {
  }

  lemma SmsStepKeeps(s: State, step: Step)
    requires Inv(s) && (step.SelectSms? || step.Post? || step.StoreWarning? || step.UpdateSms?)
    ensures Inv(Apply(s, step))
    ensures Weight(Apply(s, step)) <= Weight(s) - (if IsAttempt(s, step) then 1 else 0)
  {
    hide QueueValid, AllTriesLeft, Recorded, Selection;
    match step
    case SelectSms(order) => SelectionIsValid(s.sms, SMS_RETRIES, order);
    case Post(ok) =>
    case StoreWarning(works) =>
      TriesOfMore(s.emails, EMAIL_RETRIES);
      MoreRowsQueue(s.emails, EMAIL_RETRIES, s.mailQueue);
    case UpdateSms =>
      if s.smsQueue != [] {
        RecordedQueue(s.sms, SMS_RETRIES, s.smsQueue, s.smsPhase);
        RecordedLength(s.sms, s.smsQueue, SMS_RETRIES, s.smsPhase);
      }
  }

  lemma RecordedLength(rows: seq<Row>, queue: seq<nat>, limit: nat, phase: Phase)
    requires QueueValid(rows, limit, queue) && queue != []
    ensures queue[0] < |rows| && |Recorded(rows, queue[0], phase)| == |rows|
  {
  }

  lemma SelectionIsValid(rows: seq<Row>, limit: nat, order: seq<nat>)
    ensures Selection(rows, limit, order) ==> QueueValid(rows, limit, order)
  {
  }

  lemma DropQueue(rows: seq<Row>, limit: nat, queue: seq<nat>)
    requires QueueValid(rows, limit, queue) && queue != []
    ensures QueueValid(rows, limit, queue[1..])
  {
  }

  lemma MailStepKeeps(s: State, step: Step)
    requires Inv(s) && (step.SelectMail? || step.Send? || step.SkipMail? || step.UpdateMail?)
    ensures Inv(Apply(s, step))
    ensures Weight(Apply(s, step)) <= Weight(s) - (if IsAttempt(s, step) then 1 else 0)
  {
    hide QueueValid, AllTriesLeft, Recorded, Selection;
    match step
    case SelectMail(order) => SelectionIsValid(s.emails, EMAIL_RETRIES, order);
    case Send(ok) =>
    case SkipMail => if s.mailQueue != [] { DropQueue(s.emails, EMAIL_RETRIES, s.mailQueue); }
    case UpdateMail =>
      if s.mailQueue != [] {
        RecordedQueue(s.emails, EMAIL_RETRIES, s.mailQueue, s.mailPhase);
        RecordedLength(s.emails, s.mailQueue, EMAIL_RETRIES, s.mailPhase);
      }
  }

  /** Every step keeps the invariant. Apart from storing a new message, no step
      raises the weight, and every attempt lowers it. */
  lemma StepKeeps(s: State, step: Step)
    requires Inv(s)
    ensures Inv(Apply(s, step))
    ensures !step.StoreSms? ==> Weight(Apply(s, step)) <= Weight(s) - (if IsAttempt(s, step) then 1 else 0)
  {
    hide Weight, Apply, IsAttempt;
    match step
    case StoreSms => StoreKeeps(s);
    case SelectMail(_) => MailStepKeeps(s, step);
    case Send(_) => MailStepKeeps(s, step);
    case SkipMail => MailStepKeeps(s, step);
    case UpdateMail => MailStepKeeps(s, step);
    case _ => SmsStepKeeps(s, step);
  }

  lemma StoreKeeps(s: State)
    requires Inv(s)
    ensures Inv(Apply(s, StoreSms))
  {
    hide QueueValid, AllTriesLeft;
    TriesOfMore(s.sms, SMS_RETRIES);
    MoreRowsQueue(s.sms, SMS_RETRIES, s.smsQueue);
  }

  lemma {:induction false} InvHolds(steps: seq<Step>)
    ensures Inv(Run(START, steps))
  {
    if steps != [] {
      hide Inv, Apply;
      InvHolds(steps[..|steps| - 1]);
      StepKeeps(Run(START, steps[..|steps| - 1]), steps[|steps| - 1]);
    }
  }

  lemma NothingNegative(s: State)
    requires Inv(s)
    ensures SmsLeft(s) >= 0 && MailLeft(s) >= 0 && Weight(s) >= 0
  {
    if s.smsQueue != [] { RecordedQueue(s.sms, SMS_RETRIES, s.smsQueue, s.smsPhase); }
    if s.mailQueue != [] { RecordedQueue(s.emails, EMAIL_RETRIES, s.mailQueue, s.mailPhase); }
  }

  /** However the two loops interleave and whatever fails, k stored messages cause
      at most 11k posts and 44k emails. */
  lemma QueuesDrain(steps: seq<Step>)
    ensures var s := Run(START, steps); s.posts <= 11 * |s.sms| && s.sends <= 44 * |s.sms|
  {
    InvHolds(steps);
    NothingNegative(Run(START, steps));
  }

  // ---------- every attempt is accounted for ----------

  /** The attempts that the table remembers: failures, and the final success. */
  function Attempts(rows: seq<Row>): nat {
    if rows == [] then 0
    else
      var last := rows[|rows| - 1];
      Attempts(rows[..|rows| - 1]) + last.retries + if last.closed then 1 else 0
  }

  lemma {:induction false} OneMoreAttempt(rows: seq<Row>, i: nat, phase: Phase)
    requires i < |rows| && !rows[i].closed
    ensures Attempts(Recorded(rows, i, phase)) == Attempts(rows) + 1
  {
    var n := |rows| - 1;
    var after := Recorded(rows, i, phase);
    if i == n {
      assert after[..n] == rows[..n];
    } else {
      assert after[..n] == Recorded(rows[..n], i, phase);
      OneMoreAttempt(rows[..n], i, phase);
    }
  }

  lemma NewRowNoAttempt(rows: seq<Row>)
    ensures Attempts(rows + [NEW_ROW]) == Attempts(rows)
  {
    assert (rows + [NEW_ROW])[..|rows|] == rows;
  }

  ghost predicate Accounted(s: State) {
    s.posts == Attempts(s.sms) + Busy(s.smsPhase) && s.sends == Attempts(s.emails) + Busy(s.mailPhase)
  }

  lemma StepAccounts(s: State, step: Step)
    requires Inv(s) && Accounted(s)
    ensures Accounted(Apply(s, step))
  {
    hide Attempts, Recorded, Selection, AllTriesLeft;
    NewRowNoAttempt(s.sms);
    NewRowNoAttempt(s.emails);
    if step.UpdateSms? && s.smsQueue != [] { OneMoreAttempt(s.sms, s.smsQueue[0], s.smsPhase); }
    if step.UpdateMail? && s.mailQueue != [] { OneMoreAttempt(s.emails, s.mailQueue[0], s.mailPhase); }
  }

  /** Every post and every send is in the tables, as a failure or as the success
      that closed its row, except the one in flight; and no warning email exists
      without a failed post. */
  lemma {:induction false} EveryAttemptIsRecorded(steps: seq<Step>)
    ensures Accounted(Run(START, steps))
    ensures |Run(START, steps).emails| <= Run(START, steps).posts
  {
    InvHolds(steps);
    if steps != [] {
      hide Accounted, Apply, Inv;
      EveryAttemptIsRecorded(steps[..|steps| - 1]);
      InvHolds(steps[..|steps| - 1]);
      StepAccounts(Run(START, steps[..|steps| - 1]), steps[|steps| - 1]);
      EmailsArePosts(Run(START, steps));
    }
  }

  lemma EmailsArePosts(s: State)
    requires Inv(s)
    ensures |s.emails| <= s.posts
  {
  }

  // ---------- the tables tell how the attempts ended ----------

  /** One attempt: for which row, and whether it succeeded. */
  datatype Try = Try(row: nat, ok: bool)

  /** The posts of a run, and its sends, as they were answered. */
  function PostLog(steps: seq<Step>): seq<Try> {
    if steps == [] then []
    else
      var s, step := Run(START, steps[..|steps| - 1]), steps[|steps| - 1];
      PostLog(steps[..|steps| - 1]) + Posted(s, step)
  }

  function SendLog(steps: seq<Step>): seq<Try> {
    if steps == [] then []
    else
      var s, step := Run(START, steps[..|steps| - 1]), steps[|steps| - 1];
      SendLog(steps[..|steps| - 1]) + Mailed(s, step)
  }

  /** What a step adds to the two logs. */
  function Posted(s: State, step: Step): seq<Try> {
    if step.Post? && s.smsPhase.Idle? && s.smsQueue != [] then [Try(s.smsQueue[0], step.ok)] else []
  }

  function Mailed(s: State, step: Step): seq<Try> {
    if step.Send? && s.mailPhase.Idle? && s.mailQueue != [] then [Try(s.mailQueue[0], step.ok)] else []
  }

  /** The log without the attempt in flight. */
  function Settled(log: seq<Try>, phase: Phase): seq<Try> {
    if phase.Idle? || log == [] then log else log[..|log| - 1]
  }

  /** Whether the last attempt for a row succeeded. */
  predicate LastSucceeded(log: seq<Try>, i: nat) {
    log != [] &&
    if log[|log| - 1].row == i then log[|log| - 1].ok else LastSucceeded(log[..|log| - 1], i)
  }

  function Failures(log: seq<Try>, i: nat): nat {
    if log == [] then 0
    else Failures(log[..|log| - 1], i) + if log[|log| - 1] == Try(i, false) then 1 else 0
  }

  /** The table says of every row how its attempts ended: closed exactly if the
      last one succeeded, which no other follows, with every failure counted. */
  ghost predicate Tells(rows: seq<Row>, log: seq<Try>) {
    && (forall i :: 0 <= i < |rows| ==> RowTells(rows[i], log, i))
    && (forall k :: 0 <= k < |log| ==> log[k].row < |rows|)
  }

  ghost predicate RowTells(row: Row, log: seq<Try>, i: nat) {
    && (row.closed <==> LastSucceeded(log, i))
    && (row.closed <==> Try(i, true) in log)
    && row.retries == Failures(log, i)
  }

  lemma OneMoreTry(log: seq<Try>, t: Try, i: nat)
    ensures Failures(log + [t], i) == Failures(log, i) + if t == Try(i, false) then 1 else 0
    ensures LastSucceeded(log + [t], i) <==> if t.row == i then t.ok else LastSucceeded(log, i)
  {
    assert (log + [t])[..|log|] == log;
  }

  lemma {:induction false} UntriedRow(log: seq<Try>, i: nat)
    requires forall k :: 0 <= k < |log| ==> log[k].row != i
    ensures Failures(log, i) == 0 && !LastSucceeded(log, i) && Try(i, true) !in log
  {
    if log != [] { UntriedRow(log[..|log| - 1], i); }
  }

  lemma RecordTells(rows: seq<Row>, log: seq<Try>, i: nat, phase: Phase)
    requires Tells(rows, log) && i < |rows| && !rows[i].closed
    ensures Tells(Recorded(rows, i, phase), log + [Try(i, phase.Closing?)])
  {
    hide Failures, LastSucceeded;
    var t := Try(i, phase.Closing?);
    forall j | 0 <= j < |rows| ensures RowTells(Recorded(rows, i, phase)[j], log + [t], j) {
      OneMoreTry(log, t, j);
      assert RowTells(rows[j], log, j);
    }
  }

  lemma NewRowTells(rows: seq<Row>, log: seq<Try>)
    requires Tells(rows, log)
    ensures Tells(rows + [NEW_ROW], log)
  {
    hide Failures, LastSucceeded;
    UntriedRow(log, |rows|);
    forall i | 0 <= i < |rows| + 1 ensures RowTells((rows + [NEW_ROW])[i], log, i) {
      assert i < |rows| ==> RowTells(rows[i], log, i);
    }
  }

  /** What is in flight is the last of the log: a success while the row is being
      closed, a failure otherwise. */
  ghost predicate InFlight(log: seq<Try>, phase: Phase, queue: seq<nat>) {
    !phase.Idle? ==> log != [] && queue != [] && log[|log| - 1] == Try(queue[0], phase.Closing?)
  }

  ghost predicate TablesTell(s: State, posts: seq<Try>, sends: seq<Try>) {
    && TableTells(s.sms, posts, s.smsPhase, s.smsQueue)
    && TableTells(s.emails, sends, s.mailPhase, s.mailQueue)
  }

  /** A table once what is in flight is written to it. */
  lemma UpdateTells(rows: seq<Row>, log: seq<Try>, limit: nat, queue: seq<nat>, phase: Phase)
    requires QueueValid(rows, limit, queue) && queue != [] && !phase.Idle?
    requires Tells(rows, Settled(log, phase)) && InFlight(log, phase, queue)
    ensures Tells(Recorded(rows, queue[0], phase), log)
  {
    hide Tells, Recorded;
    assert log == log[..|log| - 1] + [log[|log| - 1]];
    RecordTells(rows, log[..|log| - 1], queue[0], phase);
  }

  ghost predicate TableTells(rows: seq<Row>, log: seq<Try>, phase: Phase, queue: seq<nat>) {
    Tells(rows, Settled(log, phase)) && InFlight(log, phase, queue)
  }

  lemma SmsStepTells(s: State, step: Step, log: seq<Try>)
    requires Inv(s) && TableTells(s.sms, log, s.smsPhase, s.smsQueue)
    ensures var t := Apply(s, step);
            TableTells(t.sms, log + Posted(s, step), t.smsPhase, t.smsQueue)
  {
    hide Tells, Recorded, Selection, AllTriesLeft;
    assert log + [] == log;
    if step.StoreSms? { NewRowTells(s.sms, Settled(log, s.smsPhase)); }
    if step.UpdateSms? && !s.smsPhase.Idle? { UpdateTells(s.sms, log, SMS_RETRIES, s.smsQueue, s.smsPhase); }
  }

  lemma MailStepTells(s: State, step: Step, log: seq<Try>)
    requires Inv(s) && TableTells(s.emails, log, s.mailPhase, s.mailQueue)
    ensures var t := Apply(s, step);
            TableTells(t.emails, log + Mailed(s, step), t.mailPhase, t.mailQueue)
  {
    hide Tells, Recorded, Selection, AllTriesLeft;
    assert log + [] == log;
    if step.StoreWarning? { NewRowTells(s.emails, Settled(log, s.mailPhase)); }
    if step.UpdateMail? && !s.mailPhase.Idle? { UpdateTells(s.emails, log, EMAIL_RETRIES, s.mailQueue, s.mailPhase); }
  }

  lemma StepTells(steps: seq<Step>, step: Step)
    requires TablesTell(Run(START, steps), PostLog(steps), SendLog(steps))
    ensures TablesTell(Run(START, steps + [step]), PostLog(steps + [step]), SendLog(steps + [step]))
  {
    hide Tells, InFlight, Inv, Apply, PostLog, SendLog, Run;
    var s := Run(START, steps);
    InvHolds(steps);
    LogsGrow(steps, step);
    SmsStepTells(s, step, PostLog(steps));
    MailStepTells(s, step, SendLog(steps));
  }

  lemma LogsGrow(steps: seq<Step>, step: Step)
    ensures var s := Run(START, steps);
            && Run(START, steps + [step]) == Apply(s, step)
            && PostLog(steps + [step]) == PostLog(steps) + Posted(s, step)
            && SendLog(steps + [step]) == SendLog(steps) + Mailed(s, step)
  {
    hide Apply;
    assert (steps + [step])[..|steps|] == steps;
  }

  lemma {:induction false} TablesTellAlways(steps: seq<Step>)
    ensures TablesTell(Run(START, steps), PostLog(steps), SendLog(steps))
  {
    if steps == [] {
    } else {
      hide *;
      var front := steps[..|steps| - 1];
      TablesTellAlways(front);
      StepTells(front, steps[|steps| - 1]);
      assert front + [steps[|steps| - 1]] == steps;
    }
  }

  /** However the loops interleave, the tables tell how the attempts ended, but
      for the one in flight: a message is finished exactly if its last post
      succeeded, its retries are its failed posts, and it is selected again
      exactly if none succeeded and at most ten failed; for emails, three. */
  lemma TablesTellOutcomes(steps: seq<Step>, order: seq<nat>, i: nat)
    ensures var s := Run(START, steps); var log := Settled(PostLog(steps), s.smsPhase);
            i < |s.sms| ==>
              && (s.sms[i].closed <==> LastSucceeded(log, i))
              && s.sms[i].retries == Failures(log, i)
              && (Selection(s.sms, SMS_RETRIES, order) ==>
                    (i in order <==> Try(i, true) !in log && Failures(log, i) <= 10))
    ensures var s := Run(START, steps); var log := Settled(SendLog(steps), s.mailPhase);
            i < |s.emails| ==>
              && (s.emails[i].closed <==> LastSucceeded(log, i))
              && s.emails[i].retries == Failures(log, i)
              && (Selection(s.emails, EMAIL_RETRIES, order) ==>
                    (i in order <==> Try(i, true) !in log && Failures(log, i) <= 3))
  {
    hide Run, PostLog, SendLog, Failures, LastSucceeded;
    TablesTellAlways(steps);
    var s := Run(START, steps);
    assert i < |s.sms| ==> RowTells(s.sms[i], Settled(PostLog(steps), s.smsPhase), i);
    assert i < |s.emails| ==> RowTells(s.emails[i], Settled(SendLog(steps), s.mailPhase), i);
  }

  // ---------- closed rows stay closed and untried ----------

  /** A post is for a message that is neither finished nor out of tries, and an
      email is sent only if it is neither sent nor out of tries. */
  lemma OnlyOpenRowsAreTried(steps: seq<Step>, step: Step)
    ensures var s := Run(START, steps); var t := Apply(s, step);
            && (t.posts > s.posts ==> s.smsQueue[0] < |s.sms| && Open(s.sms[s.smsQueue[0]], SMS_RETRIES))
            && (t.sends > s.sends ==> s.mailQueue[0] < |s.emails| && Open(s.emails[s.mailQueue[0]], EMAIL_RETRIES))
  {
    InvHolds(steps);
  }

  ghost predicate Extends(before: seq<Row>, after: seq<Row>) {
    && |before| <= |after|
    && forall i :: 0 <= i < |before| ==>
         (before[i].closed ==> after[i].closed) && before[i].retries <= after[i].retries
  }

  lemma {:induction false} RowsOnlyAdvance(s: State, steps: seq<Step>)
    ensures Extends(s.sms, Run(s, steps).sms) && Extends(s.emails, Run(s, steps).emails)
  {
    if steps != [] {
      RowsOnlyAdvance(s, steps[..|steps| - 1]);
      var t := Run(s, steps[..|steps| - 1]);
      StepAdvances(t, steps[|steps| - 1]);
    }
  }

  lemma StepAdvances(s: State, step: Step)
    ensures Extends(s.sms, Apply(s, step).sms) && Extends(s.emails, Apply(s, step).emails)
  {
    hide Selection;
  }

  /** A message that is finished, or an email that is sent, is never tried again
      in any run that goes on from there. */
  lemma ClosedIsNeverTriedAgain(first: seq<Step>, more: seq<Step>, step: Step, i: nat)
    ensures var s := Run(START, first); var t := Run(START, first + more); var u := Apply(t, step);
            && (i < |s.sms| && s.sms[i].closed && u.posts > t.posts ==> t.smsQueue[0] != i)
            && (i < |s.emails| && s.emails[i].closed && u.sends > t.sends ==> t.mailQueue[0] != i)
  {
    RunConcat(START, first, more);
    RowsOnlyAdvance(Run(START, first), more);
    OnlyOpenRowsAreTried(first + more, step);
  }

  lemma {:induction false} RunConcat(s: State, a: seq<Step>, b: seq<Step>)
    ensures Run(s, a + b) == Run(Run(s, a), b)
  {
    if b == [] {
      assert a + b == a;
    } else {
      assert (a + b)[..|a + b| - 1] == a + b[..|b| - 1];
      RunConcat(s, a, b[..|b| - 1]);
    }
  }
}
