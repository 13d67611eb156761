/**
 The email service: one Kafka consumer group reading the topic, one handler call
 per record, and Resend, which sends at most one email per idempotency key
 (services/email/src/consumer/handler.ts, consumer/index.ts, sender/resend.ts).
 */
module Consumer {
  import opened Basics
  import opened Outbox
  import opened Publisher

  type Wid = nat

  /** The topic the group reads. */
  const TOPIC := "email.auth"

  /** The publisher sends the one event type it knows to the topic that is read here. */
  lemma RoutedHere(eventType: string)
    ensures (RouteTopic(eventType)
         == if eventType == "auth_email" then Ok(TOPIC) else Err(UnknownEventType(eventType)))
  {
  }

  const NON_RETRYABLE_ERRORS: seq<string> :=
    ["Invalid email address", "Domain not allowed", "Unknown email payload type", "Missing email payload",
      "validation_error"]

  predicate Includes(text: string, part: string) {
    exists i | 0 <= i <= |text| :: part <= text[i..]
  }

  predicate IsRetryable(message: string) {
    !exists i | 0 <= i < |NON_RETRYABLE_ERRORS| :: Includes(message, NON_RETRYABLE_ERRORS[i])
  }

  /** What a `catch` receives: an `Error` with its message, or any other value. */
  datatype Thrown = ErrorObject(message: string) | OtherValue

  predicate WorthRetrying(thrown: Thrown) {
    thrown.ErrorObject? ==> IsRetryable(thrown.message)
  }

  datatype ResendReply = Accepted | Rejected(message: string) | Raised(thrown: Thrown)

  datatype SendResult = SendResult(success: bool, error: Option<string>)

  function SendEmail(reply: ResendReply): SendResult {
    match reply
    case Accepted => SendResult(true, None)
    case Rejected(message) => SendResult(false, Some(message))
    case Raised(thrown) => SendResult(false, Some(if thrown.ErrorObject? then thrown.message else "Unknown error"))
  }

  /** `noContent` is what `getAuthEmailContent` throws, if it does. */
  function Failure(noContent: Option<Thrown>, reply: ResendReply): Option<Thrown> {
    if noContent.Some? then noContent
    else if SendEmail(reply).success then None
    else Some(ErrorObject(if SendEmail(reply).error.Some? then SendEmail(reply).error.value else "Email send failed"))
  }

  datatype Verdict = Returned | Threw(thrown: Thrown)

  // ----- the answer to a message, read off what happened to it -----

  predicate Occurs(part: string, text: string) {
    exists i, j | 0 <= i <= j <= |text| :: text[i..j] == part
  }

  /** The message of an error that no retry can help. */
  predicate Permanent(m: string) {
    || Occurs("Invalid email address", m) || Occurs("Domain not allowed", m)
    || Occurs("Unknown email payload type", m) || Occurs("Missing email payload", m) || Occurs("validation_error", m)
  }

  /**
   The error of a message: what preparing the content threw, the text Resend gave,
   or the text of what its client threw; anything thrown that is no error has none.
   */
  function ErrorOf(noContent: Option<Thrown>, reply: ResendReply): Option<Thrown> {
    match noContent
    case Some(thrown) => Some(thrown)
    case None =>
      match reply
      case Accepted => None
      case Rejected(m) => Some(ErrorObject(m))
      case Raised(ErrorObject(m)) => Some(ErrorObject(m))
      case Raised(OtherValue) => Some(ErrorObject("Unknown error"))
  }

  /** Mailed, or failed for good. */
  predicate DoneWith(noContent: Option<Thrown>, reply: ResendReply) {
    match ErrorOf(noContent, reply)
    case None => true
    case Some(ErrorObject(m)) => Permanent(m)
    case Some(OtherValue) => false
  }

  lemma IncludesExactly(text: string, part: string)
    ensures Includes(text, part) <==> Occurs(part, text)
  {
    if Includes(text, part) {
      var i :| 0 <= i <= |text| && part <= text[i..];
      assert text[i..i + |part|] == part;
    }
    if Occurs(part, text) {
      var i, j :| 0 <= i <= j <= |text| && text[i..j] == part;
      assert text[i..][..|part|] == part;
    }
  }

  lemma RetryableExactly(m: string)
    ensures IsRetryable(m) <==> !Permanent(m)
  {
    forall i | 0 <= i < |NON_RETRYABLE_ERRORS|
      ensures Includes(m, NON_RETRYABLE_ERRORS[i]) <==> Occurs(NON_RETRYABLE_ERRORS[i], m)
    {
      IncludesExactly(m, NON_RETRYABLE_ERRORS[i]);
    }
    assert NON_RETRYABLE_ERRORS[0] == "Invalid email address" && NON_RETRYABLE_ERRORS[1] == "Domain not allowed";
    assert NON_RETRYABLE_ERRORS[2] == "Unknown email payload type";
    assert NON_RETRYABLE_ERRORS[3] == "Missing email payload" && NON_RETRYABLE_ERRORS[4] == "validation_error";
  }

  lemma FailureExactly(noContent: Option<Thrown>, reply: ResendReply)
    ensures Failure(noContent, reply) == ErrorOf(noContent, reply)
  {
  }

  /** The counters `recordEmailSent` and `recordEmailFailed` feed. */
  class Handler {
    var sent: nat
    var failed: nat

    constructor ()
      ensures sent == 0 && failed == 0
    {
      sent, failed := 0, 0;
    }

    /** The `try` block up to the point where it returns or throws. */
    method TrySend(noContent: Option<Thrown>, reply: ResendReply) returns (verdict: Verdict)
      modifies this
      ensures sent == old(sent) + if noContent.None? && reply.Accepted? then 1 else 0
      ensures failed == old(failed) + if verdict == Returned && !(noContent.None? && reply.Accepted?) then 1 else 0
      ensures verdict == Returned <==> noContent.None? && DoneWith(noContent, reply)
      ensures verdict.Threw? ==> ErrorOf(noContent, reply) == Some(verdict.thrown)
    {
      if noContent.Some? {
        return Threw(noContent.value);
      }
      FailureExactly(noContent, reply);
      var result := SendEmail(reply);
      if !result.success {
        var error := ErrorObject(if result.error.Some? then result.error.value else "Email send failed");
        RetryableExactly(error.message);
        if !WorthRetrying(error) {
          failed := failed + 1;
          return Returned;
        }
        return Threw(error);
      }
      sent := sent + 1;
      return Returned;
    }

    /**
     One handler call counts the message exactly once, as sent exactly when Resend
     accepted it and as failed otherwise. It throws, and with the very error, unless
     the message was sent or one of the five texts occurs in the error's.
     */
    method HandleAuthEmailMessage(noContent: Option<Thrown>, reply: ResendReply) returns (verdict: Verdict)
      modifies this
      ensures sent == old(sent) + if noContent.None? && reply.Accepted? then 1 else 0
      ensures failed == old(failed) + if noContent.None? && reply.Accepted? then 0 else 1
      ensures verdict == if DoneWith(noContent, reply) then Returned else Threw(ErrorOf(noContent, reply).value)
    {
      verdict := TrySend(noContent, reply);
      if verdict.Threw? {
        failed := failed + 1;
        if verdict.thrown.ErrorObject? {
          RetryableExactly(verdict.thrown.message);
        }
        if !WorthRetrying(verdict.thrown) {
          verdict := Returned;
        }
      }
    }
  }

  /**
   A consumer's place: it began at `start` and goes on at `next`. A committed
   offset is the `next` of the consumer that committed it; `start` is history.
   */
  datatype Place = Place(start: nat, next: nat)

  /**
   `workers` are the consumers that believe they own the partition. `first` is
   history: where the group began the first time. `accepted` is Resend's memory
   of idempotency keys, `outbound` the emails it sent, and `skipped` the error
   text of each record given up on.
   */
  datatype State = State(
    committed: Option<Place>,
    first: Option<nat>,
    workers: map<Wid, Place>,
    accepted: map<EventId, Message>,
    outbound: seq<Message>,
    skipped: map<nat, string>)

  datatype Action =
    | Join(w: Wid)
    | Leave(w: Wid)
    | CommitOffset(w: Wid)
    | Deliver(w: Wid, noContent: Option<Thrown>, taken: bool, reply: ResendReply)

  ghost predicate Init(s: State) {
    s == State.State(None, None, map[], map[], [], map[])
  }

  function ValueOf(rec: Record): Value {
    match rec
    case Published(row, _) => Mail(row.payload)
    case Foreign(value) => value
  }

  /** `taken` says that the request reached Resend, which its reply need not show. */
  predicate Enabled(log: seq<Record>, s: State, a: Action) {
    match a
    case Join(w) => w !in s.workers
    case Leave(w) => w in s.workers
    case CommitOffset(w) => w in s.workers
    case Deliver(w, _, taken, reply) => w in s.workers && s.workers[w].next < |log| && (reply == Accepted ==> taken)
  }

  function Take(s: State, m: Message): State {
    if m.key in s.accepted then s
    else s.(accepted := s.accepted[m.key := m], outbound := s.outbound + [m])
  }

  function MoveOn(s: State, w: Wid): State
    requires w in s.workers
  {
    s.(workers := s.workers[w := s.workers[w].(next := s.workers[w].next + 1)])
  }

  /**
   A consumer joins at the committed offset; while there is none, at the end of
   the log (`fromBeginning: false`). `eachMessage` returning normally moves the
   consumer on; throwing leaves it where it is.
   */
  function Next(log: seq<Record>, s: State, a: Action): State
    requires Enabled(log, s, a)
  {
    match a
    case Join(w) =>
      var place := if s.committed.Some? then s.committed.value else Place(|log|, |log|);
      s.(first := if s.first.Some? then s.first else Some(|log|), workers := s.workers[w := place])
    case Leave(w) => s.(workers := s.workers - {w})
    case CommitOffset(w) => s.(committed := Some(s.workers[w]))
    case Deliver(w, noContent, taken, reply) =>
      var p := s.workers[w].next;
      match ValueOf(log[p])
      case Empty => MoveOn(s, w)
      case Corrupt => s
      case Mail(m) =>
        var t := if noContent.None? && taken then Take(s, m) else s;
        var failure := Failure(noContent, reply);
        if failure.None? then MoveOn(t, w)
        else if WorthRetrying(failure.value) then t
        else MoveOn(t, w).(skipped := s.skipped[p := failure.value.message])
  }

  /** The text of an error that no retry can help, if the message failed with one. */
  function GivenUpWith(noContent: Option<Thrown>, reply: ResendReply): Option<string> {
    match ErrorOf(noContent, reply)
    case Some(ErrorObject(m)) => if Permanent(m) then Some(m) else None
    case _ => None
  }

  /**
   One delivery, whole: the consumer moves on exactly if the handler returns; a
   message given up on is recorded with the very text of its error; Resend takes a
   message that reaches it unless it took one of the same key; and nothing else changes.
   */
  lemma DeliverExactly(log: seq<Record>, s: State, w: Wid, noContent: Option<Thrown>, taken: bool, reply: ResendReply)
    requires Enabled(log, s, Deliver(w, noContent, taken, reply))
    ensures var p := s.workers[w].next;
            var t := Next(log, s, Deliver(w, noContent, taken, reply));
            && t.committed == s.committed && t.first == s.first
            && match ValueOf(log[p])
               case Empty => t == s.(workers := s.workers[w := s.workers[w].(next := p + 1)])
               case Corrupt => t == s
               case Mail(m) =>
                 && t.workers == (if DoneWith(noContent, reply) then s.workers[w := s.workers[w].(next := p + 1)]
                                  else s.workers)
                 && t.skipped == (if GivenUpWith(noContent, reply).Some?
                                  then s.skipped[p := GivenUpWith(noContent, reply).value] else s.skipped)
                 && (if noContent.None? && taken && m.key !in s.accepted
                     then t.accepted == s.accepted[m.key := m] && t.outbound == s.outbound + [m]
                     else t.accepted == s.accepted && t.outbound == s.outbound)
  {
    FailureExactly(noContent, reply);
    match ErrorOf(noContent, reply)
    case Some(ErrorObject(text)) => RetryableExactly(text);
    case _ =>
  }

  ghost predicate Settled(log: seq<Record>, s: State, pos: nat)
    requires pos < |log|
  {
    match ValueOf(log[pos])
    case Empty => true
    case Corrupt => false
    case Mail(m) => m.key in s.accepted || (pos in s.skipped && !IsRetryable(s.skipped[pos]))
  }

  /** All records of the range are settled. */
  ghost predicate Covered(log: seq<Record>, s: State, start: nat, next: nat) {
    start <= next <= |log| && forall q | start <= q < next :: Settled(log, s, q)
  }

  ghost predicate PlaceOk(log: seq<Record>, s: State, place: Place) {
    s.first.Some? && s.first.value <= place.start && Covered(log, s, place.start, place.next)
  }

  ghost predicate Positions(log: seq<Record>, s: State) {
    && (s.first.Some? ==> s.first.value <= |log|)
    && (s.committed.Some? ==> PlaceOk(log, s, s.committed.value))
    && (forall w | w in s.workers :: PlaceOk(log, s, s.workers[w]))
  }

  predicate InLog(log: seq<Record>, m: Message) {
    exists p | 0 <= p < |log| :: ValueOf(log[p]) == Mail(m)
  }

  /** The emails sent are the accepted messages, one for each key, and each stands in the log. */
  ghost predicate Emails(log: seq<Record>, accepted: map<EventId, Message>, outbound: seq<Message>) {
    && (forall k | k in accepted :: accepted[k].key == k && accepted[k] in outbound)
    && (forall i | 0 <= i < |outbound| ::
          && outbound[i].key in accepted && accepted[outbound[i].key] == outbound[i]
          && InLog(log, outbound[i]))
    && (forall i, j | 0 <= i < j < |outbound| :: outbound[i].key != outbound[j].key)
  }

  ghost predicate Inv(log: seq<Record>, s: State) {
    Positions(log, s) && Emails(log, s.accepted, s.outbound)
  }

  /** What is settled stays settled. */
  lemma CoveredStays(log: seq<Record>, s: State, t: State, start: nat, next: nat)
    requires Covered(log, s, start, next)
    requires s.accepted.Keys <= t.accepted.Keys
    requires forall q | q in s.skipped && !IsRetryable(s.skipped[q]) :: q in t.skipped && !IsRetryable(t.skipped[q])
    ensures Covered(log, t, start, next)
  {
    forall q | start <= q < next ensures Settled(log, t, q) {
      assert Settled(log, s, q);
    }
  }

  lemma StepKeepsCovered(log: seq<Record>, s: State, a: Action, start: nat, next: nat)
    requires Enabled(log, s, a) && Covered(log, s, start, next)
    ensures Covered(log, Next(log, s, a), start, next)
  {
    CoveredStays(log, s, Next(log, s, a), start, next);
  }

  /** A worker that moves on has settled the record it leaves behind. */
  lemma DeliverSettles(log: seq<Record>, s: State, a: Action, from: nat)
    requires Enabled(log, s, a) && a.Deliver? && Covered(log, s, from, s.workers[a.w].next)
    ensures Covered(log, Next(log, s, a), from, Next(log, s, a).workers[a.w].next)
  {
    StepKeepsCovered(log, s, a, from, s.workers[a.w].next);
  }

  /** A consumer's place comes from its own place before, or from its join. */
  lemma PlaceFrom(log: seq<Record>, s: State, a: Action, w: Wid)
    requires Enabled(log, s, a) && w in Next(log, s, a).workers
    ensures var place := Next(log, s, a).workers[w];
            if w in s.workers then s.workers[w].start == place.start
            else a.Join? && place == if s.committed.Some? then s.committed.value else Place(|log|, |log|)
  {
  }

  lemma OtherPlaceOk(log: seq<Record>, s: State, a: Action, w: Wid)
    requires Positions(log, s) && Enabled(log, s, a) && w in s.workers && w in Next(log, s, a).workers
    requires !(a.Deliver? && a.w == w)
    ensures PlaceOk(log, Next(log, s, a), Next(log, s, a).workers[w])
  {
    StepKeepsCovered(log, s, a, s.workers[w].start, s.workers[w].next);
  }

  lemma WorkersKept(log: seq<Record>, s: State, a: Action)
    requires Positions(log, s) && Enabled(log, s, a)
    ensures forall w | w in Next(log, s, a).workers :: PlaceOk(log, Next(log, s, a), Next(log, s, a).workers[w])
  {
    var t := Next(log, s, a);
    forall w | w in t.workers ensures PlaceOk(log, t, t.workers[w]) {
      if a.Deliver? && w == a.w {
        DeliverSettles(log, s, a, s.workers[w].start);
      } else if w in s.workers {
        OtherPlaceOk(log, s, a, w);
      } else {
        JoinPlaceOk(log, s, w);
      }
    }
  }

  lemma JoinPlaceOk(log: seq<Record>, s: State, w: Wid)
    requires Positions(log, s) && Enabled(log, s, Join(w))
    ensures PlaceOk(log, Next(log, s, Join(w)), Next(log, s, Join(w)).workers[w])
  {
    if s.committed.Some? {
      StepKeepsCovered(log, s, Join(w), s.committed.value.start, s.committed.value.next);
    }
  }

  lemma PositionsKept(log: seq<Record>, s: State, a: Action)
    requires Positions(log, s) && Enabled(log, s, a)
    ensures Positions(log, Next(log, s, a))
  {
    var t := Next(log, s, a);
    if s.committed.Some? {
      StepKeepsCovered(log, s, a, s.committed.value.start, s.committed.value.next);
    }
    WorkersKept(log, s, a);
    if a.CommitOffset? {
      assert a.w in t.workers;
    }
  }

  lemma TakeKeepsEmails(log: seq<Record>, s: State, p: nat, m: Message)
    requires Emails(log, s.accepted, s.outbound) && p < |log| && ValueOf(log[p]) == Mail(m)
    ensures Emails(log, Take(s, m).accepted, Take(s, m).outbound)
  {
    if m.key !in s.accepted {
      var t := Take(s, m);
      assert t.outbound[|s.outbound|] == m;
      forall k | k in t.accepted ensures t.accepted[k].key == k && t.accepted[k] in t.outbound {
        if k in s.accepted {
          assert s.accepted[k] in s.outbound;
        }
      }
    }
  }

  /** Resend's side changes only by taking the message a worker is at. */
  lemma TakesDelivered(log: seq<Record>, s: State, a: Action)
    requires Enabled(log, s, a)
    ensures var t := Next(log, s, a);
            || (t.accepted == s.accepted && t.outbound == s.outbound)
            || (a.Deliver? && ValueOf(log[s.workers[a.w].next]).Mail? &&
                var u := Take(s, ValueOf(log[s.workers[a.w].next]).message);
                t.accepted == u.accepted && t.outbound == u.outbound)
  {
  }

  lemma EmailsKept(log: seq<Record>, s: State, a: Action)
    requires Inv(log, s) && Enabled(log, s, a)
    ensures Emails(log, Next(log, s, a).accepted, Next(log, s, a).outbound)
  {
    TakesDelivered(log, s, a);
    if a.Deliver? && ValueOf(log[s.workers[a.w].next]).Mail? {
      TakeKeepsEmails(log, s, s.workers[a.w].next, ValueOf(log[s.workers[a.w].next]).message);
    }
  }

  lemma InvKept(log: seq<Record>, s: State, a: Action)
    requires Inv(log, s) && Enabled(log, s, a)
    ensures Inv(log, Next(log, s, a))
  {
    PositionsKept(log, s, a);
    EmailsKept(log, s, a);
  }

  lemma CoveredInLonger(log: seq<Record>, log': seq<Record>, s: State, start: nat, next: nat)
    requires Covered(log, s, start, next) && log <= log'
    ensures Covered(log', s, start, next)
  {
    forall q | start <= q < next ensures Settled(log', s, q) {
      assert Settled(log, s, q) && log'[q] == log[q];
    }
  }

  /** More records in the log disturb nothing. */
  lemma LogGrows(log: seq<Record>, log': seq<Record>, s: State)
    requires Inv(log, s) && log <= log'
    ensures Inv(log', s)
  {
    if s.committed.Some? {
      CoveredInLonger(log, log', s, s.committed.value.start, s.committed.value.next);
    }
    forall w | w in s.workers ensures PlaceOk(log', s, s.workers[w]) {
      CoveredInLonger(log, log', s, s.workers[w].start, s.workers[w].next);
    }
    forall i | 0 <= i < |s.outbound| ensures InLog(log', s.outbound[i]) {
      assert InLog(log, s.outbound[i]);
      var p :| 0 <= p < |log| && ValueOf(log[p]) == Mail(s.outbound[i]);
      assert log'[p] == log[p];
    }
  }

  // ----- records that a rejoin skips -----

  /** Every record from the group's first start up to where anyone is, or was committed, is settled. */
  ghost predicate Complete(log: seq<Record>, s: State) {
    && (s.committed.Some? ==> s.first.Some? && Covered(log, s, s.first.value, s.committed.value.next))
    && (forall w | w in s.workers :: s.first.Some? && Covered(log, s, s.first.value, s.workers[w].next))
  }

  /** The join finds a committed offset, or nothing unsettled since the group first started. */
  ghost predicate Clean(log: seq<Record>, s: State, a: Action) {
    a.Join? && s.committed.None? && s.first.Some? ==> Covered(log, s, s.first.value, |log|)
  }

  /** A step keeps the records complete exactly if it is not a join that skips some. */
  lemma CompleteExactlyWhen(log: seq<Record>, s: State, a: Action)
    requires Positions(log, s) && Complete(log, s) && Enabled(log, s, a)
    ensures Complete(log, Next(log, s, a)) <==> Clean(log, s, a)
  {
    var t := Next(log, s, a);
    if s.committed.Some? {
      StepKeepsCovered(log, s, a, s.first.value, s.committed.value.next);
    }
    if a.Join? {
      assert a.w in t.workers;
      JoinComplete(log, s, a.w);
    } else {
      forall w | w in t.workers ensures t.first.Some? && Covered(log, t, t.first.value, t.workers[w].next) {
        if a.Deliver? && w == a.w {
          DeliverSettles(log, s, a, s.first.value);
        } else {
          StepKeepsCovered(log, s, a, s.first.value, s.workers[w].next);
        }
      }
      if a.CommitOffset? {
        assert a.w in t.workers;
      }
    }
  }

  lemma JoinComplete(log: seq<Record>, s: State, w: Wid)
    requires Positions(log, s) && Complete(log, s) && Enabled(log, s, Join(w))
    ensures Complete(log, Next(log, s, Join(w))) <==> Clean(log, s, Join(w))
  {
    var t := Next(log, s, Join(w));
    assert w in t.workers;
    forall q | 0 <= q < |log| ensures Settled(log, s, q) <==> Settled(log, t, q) {
    }
    forall v | v in s.workers ensures t.first.Some? && Covered(log, t, t.first.value, t.workers[v].next) {
      StepKeepsCovered(log, s, Join(w), s.first.value, s.workers[v].next);
    }
  }

  lemma CompleteInLonger(log: seq<Record>, log': seq<Record>, s: State)
    requires Complete(log, s) && log <= log'
    ensures Complete(log', s)
  {
    if s.committed.Some? {
      CoveredInLonger(log, log', s, s.first.value, s.committed.value.next);
    }
    forall w | w in s.workers ensures Covered(log', s, s.first.value, s.workers[w].next) {
      CoveredInLonger(log, log', s, s.first.value, s.workers[w].next);
    }
  }
}
