/** The two polling loops as code: each pass is a run of the steps of
    RetryQueues, so what holds of every run holds of it. */
module Senders {
  import opened RetryQueues

  /** What happens to one message: the post, and storing the warning email. */
  datatype SmsFate = SmsFate(posted: bool, warningStored: bool)

  datatype MailFate = NoProvider | Sent | NotSent

  function SmsSteps(fate: SmsFate): seq<Step> {
    if fate.posted then [Post(true), UpdateSms]
    else [Post(false), StoreWarning(fate.warningStored), UpdateSms]
  }

  function MailSteps(fate: MailFate): seq<Step> {
    match fate
    case NoProvider => [SkipMail]
    case Sent => [Send(true), UpdateMail]
    case NotSent => [Send(false), UpdateMail]
  }

  /** The steps for the first n rows of a selection. */
  function SmsPass(fates: nat -> SmsFate, n: nat): seq<Step> {
    if n == 0 then [] else SmsPass(fates, n - 1) + SmsSteps(fates(n - 1))
  }

  function MailPass(fates: nat -> MailFate, n: nat): seq<Step> {
    if n == 0 then [] else MailPass(fates, n - 1) + MailSteps(fates(n - 1))
  }

  lemma RunOne(s: State, a: Step)
    ensures Run(s, [a]) == Apply(s, a)
  {
    assert [a][..0] == [];
  }

  lemma RunTwo(s: State, a: Step, b: Step)
    ensures Run(s, [a, b]) == Apply(Apply(s, a), b)
  {
    RunOne(s, a);
    assert [a, b][..1] == [a];
  }

  lemma RunThree(s: State, a: Step, b: Step, c: Step)
    ensures Run(s, [a, b, c]) == Apply(Apply(Apply(s, a), b), c)
  {
    RunTwo(s, a, b);
    assert [a, b, c][..2] == [a, b];
  }

  /** What the handling of the k-th row of a pass does to it. */
  function SmsChange(fates: nat -> SmsFate): (nat, Row) -> Row {
    (k: nat, row: Row) => if fates(k).posted then row.(closed := true) else row.(retries := row.retries + 1)
  }

  function MailChange(fates: nat -> MailFate): (nat, Row) -> Row {
    (k: nat, row: Row) =>
      match fates(k)
      case NoProvider => row
      case Sent => row.(closed := true)
      case NotSent => row.(retries := row.retries + 1)
  }

  /** The first k selected rows were changed, each once, and no others. */
  ghost predicate Handled(before: seq<Row>, after: seq<Row>, order: seq<nat>, change: (nat, Row) -> Row, k: nat)
  {
    && |after| == |before| && k <= |order|
    && (forall l :: 0 <= l < |order| ==>
          order[l] < |before|
          && after[order[l]] == if l < k then change(l, before[order[l]]) else before[order[l]])
    && (forall i :: 0 <= i < |before| && i !in order ==> after[i] == before[i])
  }

  lemma HandledNone(rows: seq<Row>, limit: nat, order: seq<nat>, change: (nat, Row) -> Row)
    requires Selection(rows, limit, order)
    ensures Handled(rows, rows, order, change, 0)
  {
  }

  lemma HandledNext(before: seq<Row>, after: seq<Row>, limit: nat, order: seq<nat>, change: (nat, Row) -> Row, k: nat)
    requires Selection(before, limit, order) && Handled(before, after, order, change, k) && k < |order|
    ensures order[k] < |after|
    ensures Handled(before, after[order[k] := change(k, after[order[k]])], order, change, k + 1)
  {
  }

  class Database {
    var sms: seq<Row>
    var emails: seq<Row>
    var posts: nat
    var sends: nat

    constructor ()
      ensures At([], []) == START
    {
      sms, emails, posts, sends := [], [], 0, 0;
    }

    /** The state of the queues between two rows, with these selections left. */
    function At(smsQueue: seq<nat>, mailQueue: seq<nat>): State
      reads this
    {
      State(sms, emails, smsQueue, mailQueue, Idle, Idle, posts, sends)
    }

    /** Open rows, the latest first. */
    method Select(rows: seq<Row>, limit: nat) returns (order: seq<nat>)
      ensures Selection(rows, limit, order)
    {
      order := [];
      for i := 0 to |rows|
        invariant forall k :: 0 <= k < |order| ==> order[k] < i && Open(rows[order[k]], limit)
        invariant forall k, l :: 0 <= k < l < |order| ==> order[k] != order[l]
        invariant forall j :: 0 <= j < i && Open(rows[j], limit) ==> j in order
      {
        if Open(rows[i], limit) {
          order := [i] + order;
        }
      }
    }

    method StoreSMS()
      modifies this`sms
      ensures sms == old(sms) + [Row(0, false)]
      ensures forall q, m :: At(q, m) == Apply(old(At(q, m)), StoreSms)
    {
      sms := sms + [NEW_ROW];
    }

    /** A message that is sent is finished; one that is not counts a failure and
        leaves a warning email, if that can be stored. */
    method TriggerSMS(i: nat, fate: SmsFate, ghost rest: seq<nat>, ghost mail: seq<nat>)
      requires i < |sms|
      modifies this
      ensures At(rest, mail) == Run(old(At([i] + rest, mail)), SmsSteps(fate))
      ensures sms == old(sms)[i := if fate.posted then old(sms)[i].(closed := true)
                                   else old(sms)[i].(retries := old(sms)[i].retries + 1)]
      ensures emails == old(emails) + if !fate.posted && fate.warningStored then [Row(0, false)] else []
      ensures posts == old(posts) + 1 && sends == old(sends)
    {
      ghost var s := At([i] + rest, mail);
      assert ([i] + rest)[1..] == rest;
      posts := posts + 1;
      if !fate.posted {
        if fate.warningStored {
          emails := emails + [NEW_ROW];
        }
        sms := sms[i := sms[i].(retries := sms[i].retries + 1)];
        RunThree(s, Post(false), StoreWarning(fate.warningStored), UpdateSms);
        return;
      }
      sms := sms[i := sms[i].(closed := true)];
      RunTwo(s, Post(true), UpdateSms);
    }

    /** One pass over the unfinished messages, each of which is tried once. */
    method TriggerUnfinishedSMS(fates: nat -> SmsFate) returns (order: seq<nat>)
      modifies this
      ensures Selection(old(sms), SMS_RETRIES, order)
      ensures Handled(old(sms), sms, order, SmsChange(fates), |order|)
      ensures At([], []) == Run(old(At([], [])), [SelectSms(order)] + SmsPass(fates, |order|))
    {
      hide Apply, Selection, SmsSteps, Handled, Run;
      order := Select(sms, SMS_RETRIES);
      ghost var start := At([], []);
      SmsSelected(start, order);
      HandledNone(sms, SMS_RETRIES, order, SmsChange(fates));
      assert order[0..] == order;
      for k := 0 to |order|
        invariant Handled(old(sms), sms, order, SmsChange(fates), k)
        invariant At(order[k..], []) == Run(start, [SelectSms(order)] + SmsPass(fates, k))
      {
        assert order[k..] == [order[k]] + order[k + 1..];
        SmsPassNext(start, order, fates, k);
        HandledNext(old(sms), sms, SMS_RETRIES, order, SmsChange(fates), k);
        TriggerSMS(order[k], fates(k), order[k + 1..], []);
      }
    }

    /** An email that is sent is closed; one that is not counts a failure; without a
        provider nothing happens. */
    method SendEmail(i: nat, fate: MailFate, ghost texts: seq<nat>, ghost rest: seq<nat>)
      requires i < |emails|
      modifies this
      ensures At(texts, rest) == Run(old(At(texts, [i] + rest)), MailSteps(fate))
      ensures sms == old(sms) && posts == old(posts)
      ensures sends == old(sends) + if fate.NoProvider? then 0 else 1
      ensures emails == if fate.NoProvider? then old(emails)
                        else old(emails)[i := if fate.Sent? then old(emails)[i].(closed := true)
                                              else old(emails)[i].(retries := old(emails)[i].retries + 1)]
    {
      ghost var s := At(texts, [i] + rest);
      assert ([i] + rest)[1..] == rest;
      if fate.NoProvider? {
        RunOne(s, SkipMail);
        return;
      }
      sends := sends + 1;
      if fate.NotSent? {
        emails := emails[i := emails[i].(retries := emails[i].retries + 1)];
        RunTwo(s, Send(false), UpdateMail);
        return;
      }
      emails := emails[i := emails[i].(closed := true)];
      RunTwo(s, Send(true), UpdateMail);
    }

    /** One pass over the unsent emails, each of which is tried once. */
    method SendUnsentEmails(fates: nat -> MailFate) returns (order: seq<nat>)
      modifies this
      ensures Selection(old(emails), EMAIL_RETRIES, order)
      ensures Handled(old(emails), emails, order, MailChange(fates), |order|)
      ensures At([], []) == Run(old(At([], [])), [SelectMail(order)] + MailPass(fates, |order|))
    {
      hide Apply, Selection, MailSteps, Handled, Run;
      order := Select(emails, EMAIL_RETRIES);
      ghost var start := At([], []);
      MailSelected(start, order);
      HandledNone(emails, EMAIL_RETRIES, order, MailChange(fates));
      assert order[0..] == order;
      for k := 0 to |order|
        invariant Handled(old(emails), emails, order, MailChange(fates), k)
        invariant At([], order[k..]) == Run(start, [SelectMail(order)] + MailPass(fates, k))
      {
        assert order[k..] == [order[k]] + order[k + 1..];
        MailPassNext(start, order, fates, k);
        assert order[k] < |emails| ==> emails[order[k] := emails[order[k]]] == emails;
        HandledNext(old(emails), emails, EMAIL_RETRIES, order, MailChange(fates), k);
        SendEmail(order[k], fates(k), [], order[k + 1..]);
      }
    }
  }

  lemma SmsSelected(s: State, order: seq<nat>)
    requires s.smsPhase.Idle? && s.smsQueue == [] && Selection(s.sms, SMS_RETRIES, order)
    ensures Run(s, [SelectSms(order)] + []) == s.(smsQueue := order)
  {
    hide Selection;
    assert [SelectSms(order)] + [] == [SelectSms(order)];
    RunOne(s, SelectSms(order));
  }

  lemma MailSelected(s: State, order: seq<nat>)
    requires s.mailPhase.Idle? && s.mailQueue == [] && Selection(s.emails, EMAIL_RETRIES, order)
    ensures Run(s, [SelectMail(order)] + []) == s.(mailQueue := order)
  {
    hide Selection;
    assert [SelectMail(order)] + [] == [SelectMail(order)];
    RunOne(s, SelectMail(order));
  }

  lemma SmsPassNext(s: State, order: seq<nat>, fates: nat -> SmsFate, k: nat)
    ensures Run(s, [SelectSms(order)] + SmsPass(fates, k + 1)) ==
            Run(Run(s, [SelectSms(order)] + SmsPass(fates, k)), SmsSteps(fates(k)))
  {
    hide SmsSteps, Run;
    RunConcat(s, [SelectSms(order)] + SmsPass(fates, k), SmsSteps(fates(k)));
    assert [SelectSms(order)] + SmsPass(fates, k) + SmsSteps(fates(k)) == [SelectSms(order)] + SmsPass(fates, k + 1);
  }

  lemma MailPassNext(s: State, order: seq<nat>, fates: nat -> MailFate, k: nat)
    ensures Run(s, [SelectMail(order)] + MailPass(fates, k + 1)) ==
            Run(Run(s, [SelectMail(order)] + MailPass(fates, k)), MailSteps(fates(k)))
  {
    hide MailSteps, Run;
    RunConcat(s, [SelectMail(order)] + MailPass(fates, k), MailSteps(fates(k)));
    assert [SelectMail(order)] + MailPass(fates, k) + MailSteps(fates(k)) ==
           [SelectMail(order)] + MailPass(fates, k + 1);
  }
}
