/**
 All three services together: whatever a handler commits to the outbox
 (services/identity/src/outbox/db.rs) is a row for the publisher, and nothing else
 is, so an email can be followed back to the request it was written for.
 */
module Services {
  import opened Basics
  import opened Base64Url
  import Outbox
  import Publisher
  import Consumer
  import Pipeline
  import Accounts
  import AccountsSafety
  import Drain
  import Liveness

  datatype State = State(acc: Accounts.State, pipe: Pipeline.State)

  /** `createdAt` is the time the database gives to an event the action commits. */
  datatype Action = Request(a: Accounts.Action, createdAt: int) | Deliver(p: Pipeline.Action)

  /** The content of a message: what an email is made of, besides its address. */
  function Body(payload: Accounts.Payload): string {
    match payload
    case VerificationMail(code) => "v" + code
    case PasswordChangedMail => "p"
  }

  /** What the recipient reads in a message. */
  function Payload(body: string): Option<Accounts.Payload> {
    if body == "p" then Some(Accounts.PasswordChangedMail)
    else if body != "" && body[0] == 'v' then Some(Accounts.VerificationMail(body[1..])) else None
  }

  /** The mail says what the event says, for every payload. */
  lemma BodyReads(payload: Accounts.Payload)
    ensures Payload(Body(payload)) == Some(payload)
  {
    if payload.VerificationMail? {
      assert Body(payload)[1..] == payload.code;
    }
  }

  function MessageFor(event: Accounts.Event, id: nat): Outbox.Message {
    Outbox.Message(id, event.recipient, Body(event.payload))
  }

  function RowFor(event: Accounts.Event, id: nat, createdAt: int): Outbox.OutboxRow {
    Outbox.OutboxRow(id, "auth_email", MessageFor(event, id), createdAt)
  }

  function Init(): State {
    State(Accounts.Init(), Pipeline.State.State(
      Publisher.State.State(map[], None, {}, map[], [], map[], {}, 0),
      Consumer.State.State(None, None, map[], map[], [], map[])))
  }

  /** The publisher's view of what an action of the handlers commits. */
  function Committed(s: Accounts.State, t: Accounts.State, createdAt: int): Option<Publisher.Action> {
    if |t.outbox| == |s.outbox| + 1
    then Some(Publisher.Commit(RowFor(t.outbox[|s.outbox|], |s.outbox|, createdAt))) else None
  }

  predicate Enabled(s: State, x: Action) {
    match x
    case Request(a, createdAt) =>
      && Accounts.Enabled(s.acc, a)
      && var commit := Committed(s.acc, Accounts.Next(s.acc, a), createdAt);
         commit.Some? ==> Publisher.Enabled(s.pipe.pub, commit.value)
    case Deliver(p) => Pipeline.Enabled(s.pipe, p) && !(p.Pub? && p.p.Commit?)
  }

  function Next(s: State, x: Action): State
    requires Enabled(s, x)
  {
    match x
    case Request(a, createdAt) =>
      var t := Accounts.Next(s.acc, a);
      var commit := Committed(s.acc, t, createdAt);
      State(t, if commit.Some? then Pipeline.Next(s.pipe, Pipeline.Pub(commit.value)) else s.pipe)
    case Deliver(p) => s.(pipe := Pipeline.Next(s.pipe, p))
  }

  ghost predicate Runs(s: State, actions: seq<Action>)
    decreases |actions|
  {
    actions == [] || (Enabled(s, actions[0]) && Runs(Next(s, actions[0]), actions[1..]))
  }

  ghost function After(s: State, actions: seq<Action>): State
    requires Runs(s, actions)
    decreases |actions|
  {
    if actions == [] then s else After(Next(s, actions[0]), actions[1..])
  }

  /** The rows of the outbox are the events of the handlers, each under its own id. */
  ghost predicate Coupled(outbox: seq<Accounts.Event>, table: Outbox.Table) {
    forall id: nat :: (id in table <==> id < |outbox|) && (id in table ==> RowOf(outbox, table, id))
  }

  predicate RowOf(outbox: seq<Accounts.Event>, table: Outbox.Table, id: nat)
    requires id in table
  {
    id < |outbox| && table[id].row == RowFor(outbox[id], id, table[id].row.createdAt)
  }

  ghost predicate Inv(s: State) {
    AccountsSafety.Inv(s.acc) && Pipeline.Inv(s.pipe) && Coupled(s.acc.outbox, s.pipe.pub.table)
  }

  /** An action of the handlers adds one event at the end or none. */
  lemma OutboxStep(s: Accounts.State, a: Accounts.Action)
    requires Accounts.Enabled(s, a)
    ensures var t := Accounts.Next(s, a);
            if |t.outbox| == |s.outbox| + 1 then t.outbox == s.outbox + [t.outbox[|s.outbox|]] else t.outbox == s.outbox
  {
  }

  /** No action of the handlers has to wait for the coupling: the id is always free. */
  lemma CommitEnabled(s: State, a: Accounts.Action, createdAt: int)
    requires Inv(s) && Accounts.Enabled(s.acc, a)
    ensures Enabled(s, Request(a, createdAt))
  {
  }

  lemma CoupledGrows(outbox: seq<Accounts.Event>, table: Outbox.Table, event: Accounts.Event, createdAt: int)
    requires Coupled(outbox, table)
    ensures Coupled(outbox + [event], table[|outbox| := Outbox.Stored(RowFor(event, |outbox|, createdAt), false)])
  {
    var outbox', id' := outbox + [event], |outbox|;
    var table' := table[id' := Outbox.Stored(RowFor(event, id', createdAt), false)];
    forall id: nat ensures (id in table' <==> id < |outbox'|) && (id in table' ==> RowOf(outbox', table', id)) {
      assert id in table ==> RowOf(outbox, table, id);
    }
  }

  lemma RequestKeeps(s: State, a: Accounts.Action, createdAt: int)
    requires Inv(s) && Enabled(s, Request(a, createdAt))
    ensures Inv(Next(s, Request(a, createdAt)))
  {
    var t := Accounts.Next(s.acc, a);
    AccountsSafety.InvKept(s.acc, a);
    OutboxStep(s.acc, a);
    var commit := Committed(s.acc, t, createdAt);
    if commit.Some? {
      Pipeline.InvKept(s.pipe, Pipeline.Pub(commit.value));
      CoupledGrows(s.acc.outbox, s.pipe.pub.table, t.outbox[|s.acc.outbox|], createdAt);
    }
  }

  /** Deliveries change no row, and add none. */
  lemma DeliverKeepsRows(s: State, p: Pipeline.Action)
    requires Inv(s) && Enabled(s, Deliver(p))
    ensures Coupled(s.acc.outbox, Next(s, Deliver(p)).pipe.pub.table)
  {
    if p.Pub? {
      Pipeline.RowsStay(s.pipe, p.p);
      var table, table' := s.pipe.pub.table, Next(s, Deliver(p)).pipe.pub.table;
      forall id: nat
        ensures (id in table' <==> id < |s.acc.outbox|) && (id in table' ==> RowOf(s.acc.outbox, table', id))
      {
        assert id in table' <==> id in table;
      }
    }
  }

  lemma InvKept(s: State, x: Action)
    requires Inv(s) && Enabled(s, x)
    ensures Inv(Next(s, x))
  {
    match x
    case Request(a, createdAt) => RequestKeeps(s, a, createdAt);
    case Deliver(p) =>
      Pipeline.InvKept(s.pipe, p);
      DeliverKeepsRows(s, p);
  }

  lemma {:induction false} InvHolds(s: State, actions: seq<Action>)
    requires Inv(s) && Runs(s, actions)
    ensures Inv(After(s, actions))
    decreases |actions|
  {
    if actions == [] {
    } else {
      InvKept(s, actions[0]);
      InvHolds(Next(s, actions[0]), actions[1..]);
    }
  }

  /** The handlers' part of a run. */
  function Requests(actions: seq<Action>): seq<Accounts.Action> {
    if actions == [] then []
    else (if actions[0].Request? then [actions[0].a] else []) + Requests(actions[1..])
  }

  lemma {:induction false} RequestsRun(s: State, actions: seq<Action>)
    requires Runs(s, actions)
    ensures Accounts.Runs(s.acc, Requests(actions))
    ensures Accounts.After(s.acc, Requests(actions)) == After(s, actions).acc
    decreases |actions|
  {
    if actions == [] {
    } else {
      RequestsRun(Next(s, actions[0]), actions[1..]);
      var rest := Requests(actions[1..]);
      if actions[0].Request? {
        assert Requests(actions) == [actions[0].a] + rest && ([actions[0].a] + rest)[1..] == rest;
      } else {
        assert Requests(actions) == rest;
      }
    }
  }

  /** A request of the handlers' part stands in the run. */
  lemma {:induction false} RequestAt(actions: seq<Action>, i: nat) returns (d: nat)
    requires i < |Requests(actions)|
    ensures d < |actions| && actions[d].Request? && actions[d].a == Requests(actions)[i]
    decreases |actions|
  {
    if actions[0].Request? && i == 0 {
      d := 0;
    } else {
      d := RequestAt(actions[1..], if actions[0].Request? then i - 1 else i);
      d := d + 1;
    }
  }

  /** The action that drew a token's bytes, an hour before the token expires. */
  lemma DrawOf(actions: seq<Action>, t: Accounts.TokenId) returns (d: nat)
    requires Runs(Init(), actions) && t < |After(Init(), actions).acc.tokens|
    ensures var token := After(Init(), actions).acc.tokens[t];
            && d < |actions| && actions[d].Request? && AccountsSafety.DrawsRaw(actions[d].a, token.hash.preimage)
            && token.expiresAt == actions[d].a.drawnAt + 3_600_000_000
  {
    RequestsRun(Init(), actions);
    var i := AccountsSafety.TokenLivesAnHour(Requests(actions), t);
    d := RequestAt(actions, i);
  }

  /**
   From request to inbox, over every run of all services with every fault: each
   email is one event that a handler committed, says what the event says, goes to
   the address of that event's user, and is the only one of its event. If a
   verification code is read in it, that code finds a token of the same user, exactly
   while the token is not consumed, up to 3600 seconds after the handler's action `d`
   drew it.
   */
  lemma EmailsTraceBack(actions: seq<Action>, i: nat) returns (t: Accounts.TokenId, d: nat)
    requires Runs(Init(), actions) && i < |After(Init(), actions).pipe.con.outbound|
    ensures var s := After(Init(), actions);
            var m := s.pipe.con.outbound[i];
            && m.key < |s.acc.outbox|
            && var event, read := s.acc.outbox[m.key], Payload(m.body);
            && read == Some(event.payload)
            && event.user < |s.acc.users| && m.recipient == s.acc.users[event.user].email
            && (forall j | 0 <= j < |s.pipe.con.outbound| && j != i :: s.pipe.con.outbound[j].key != m.key)
            && (read.value.VerificationMail? ==>
                  && t < |s.acc.tokens| && s.acc.tokens[t].user == event.user
                  && read.value.code == Encode(s.acc.tokens[t].hash.preimage)
                  && d < |actions| && actions[d].Request?
                  && AccountsSafety.DrawsRaw(actions[d].a, s.acc.tokens[t].hash.preimage)
                  && (AccountsSafety.RedeemableToken(s.acc, read.value.code)
                      == if !s.acc.tokens[t].consumed && s.acc.now <= actions[d].a.drawnAt + 3_600_000_000
                         then Some(t) else None))
  {
    var s := After(Init(), actions);
    AccountsSafety.InitInv();
    Pipeline.InitInv(Init().pipe);
    InvHolds(Init(), actions);
    var m := s.pipe.con.outbound[i];
    Pipeline.OutboundCommitted(s.pipe, i);
    assert RowOf(s.acc.outbox, s.pipe.pub.table, m.key);
    var event := s.acc.outbox[m.key];
    BodyReads(event.payload);
    if event.payload.VerificationMail? {
      t := AccountsSafety.CodeFinds(s.acc, m.key);
      d := DrawOf(actions, t);
    } else {
      t, d := 0, 0;
    }
  }

  // ----- nothing is stuck -----

  function Delivered(moves: seq<Pipeline.Action>): seq<Action> {
    if moves == [] then [] else [Deliver(moves[0])] + Delivered(moves[1..])
  }

  lemma Prefixed(s: State, x: Action, rest: seq<Action>)
    requires Enabled(s, x) && Runs(Next(s, x), rest)
    ensures Runs(s, [x] + rest) && After(s, [x] + rest) == After(Next(s, x), rest)
  {
    assert ([x] + rest)[1..] == rest;
  }

  lemma {:induction false} DeliveredRun(s: State, moves: seq<Pipeline.Action>)
    requires Pipeline.Runs(s.pipe, moves) && Liveness.CommitsNothing(moves)
    ensures Runs(s, Delivered(moves)) && After(s, Delivered(moves)) == s.(pipe := Pipeline.After(s.pipe, moves))
    decreases |moves|
  {
    if moves == [] {
    } else {
      DeliveredRun(Next(s, Deliver(moves[0])), moves[1..]);
      Prefixed(s, Deliver(moves[0]), Delivered(moves[1..]));
    }
  }

  /** Every event of the handlers has a topic, so nothing uses up the publisher's batches. */
  lemma NoneUnroutable(s: State)
    requires Inv(s)
    ensures Drain.Unroutable(s.pipe.pub.table) == {}
  {
    forall id | id in s.pipe.pub.table ensures Outbox.Routable(s.pipe.pub.table[id].row) {
      assert RowOf(s.acc.outbox, s.pipe.pub.table, id);
    }
  }

  /**
   One email, and only one, went out for the event: to the address of its user, with
   its payload, which for a verification is the code of a token of that user.
   */
  ghost predicate MailedOnce(s: State, e: nat, i: nat)
    requires e < |s.acc.outbox| && i < |s.pipe.con.outbound|
  {
    var event, m := s.acc.outbox[e], s.pipe.con.outbound[i];
    && m.key == e && (forall j | 0 <= j < |s.pipe.con.outbound| && j != i :: s.pipe.con.outbound[j].key != e)
    && event.user < |s.acc.users| && m.recipient == s.acc.users[event.user].email
    && Payload(m.body) == Some(event.payload)
    && (event.payload.VerificationMail? ==>
          exists t | 0 <= t < |s.acc.tokens| ::
            s.acc.tokens[t].user == event.user && event.payload.code == Encode(s.acc.tokens[t].hash.preimage))
  }

  /** The event was mailed, and only once, or a record of it was given up on. */
  ghost predicate Resolved(s: State, e: nat)
    requires e < |s.acc.outbox|
  {
    || (exists i | 0 <= i < |s.pipe.con.outbound| :: MailedOnce(s, e, i))
    || exists p | 0 <= p < |s.pipe.pub.log| :: Liveness.GivenUp(s.pipe, p, e)
  }

  /** The polls and the accepted deliveries behind them are a run that leaves every reachable event resolved. */
  ghost predicate Resolving(s: State, polls: seq<Publisher.Action>, w: Consumer.Wid) {
    && Liveness.CanFinish(s.pipe, polls, w) && Runs(s, Delivered(Liveness.Finish(s.pipe, polls, w)))
    && var t := After(s, Delivered(Liveness.Finish(s.pipe, polls, w)));
       && t.acc == s.acc
       && forall e: nat | e < |s.acc.outbox| && Liveness.Reachable(s.pipe, w, e) :: Resolved(t, e)
  }

  /** What the pipeline mails for an event is a mail of the event. */
  lemma MailedIsMailed(s: State, e: nat)
    requires Inv(s) && e < |s.acc.outbox| && Liveness.Mailed(s.pipe, MessageFor(s.acc.outbox[e], e))
    ensures exists i | 0 <= i < |s.pipe.con.outbound| :: MailedOnce(s, e, i)
  {
    var event := s.acc.outbox[e];
    var m := MessageFor(event, e);
    var i :| 0 <= i < |s.pipe.con.outbound| && s.pipe.con.outbound[i] == m &&
      forall j | 0 <= j < |s.pipe.con.outbound| && j != i :: s.pipe.con.outbound[j].key != m.key;
    BodyReads(event.payload);
    if event.payload.VerificationMail? {
      var t := AccountsSafety.CodeFinds(s.acc, e);
      assert event.payload.code == Encode(s.acc.tokens[t].hash.preimage);
    }
    assert MailedOnce(s, e, i);
  }

  /**
   From request to inbox, the other way round: from every reachable state of all
   services with an idle replica that can lead and a consumer in front of which
   every record decodes, fault-free polls whose batches can hold the backlog and the
   accepted deliveries behind them mail every event a handler has committed, each
   exactly once, unless the consumer gives up on it with a non-retryable error or
   all its records lie in front of the consumer's start. No other service has to
   move in between.
   */
  lemma EventsReachInbox(actions: seq<Action>, r: Publisher.Rid, limit: nat,
                         batches: seq<seq<Outbox.OutboxRow>>, final: Outbox.Table, w: Consumer.Wid)
    requires Runs(Init(), actions) && Liveness.Ready(After(Init(), actions).pipe, r, w)
    requires var table := After(Init(), actions).pipe.pub.table;
             && Drain.Rounds(table, limit, batches, final)
             && limit > 0 && |Drain.RoutableBacklog(table)| <= |batches| * limit
    ensures var s := After(Init(), actions);
            var polls := Drain.RoundsActions(r, limit, batches, s.pipe.pub.nextReq);
            Resolving(s, polls, w)
  {
    var s := After(Init(), actions);
    AccountsSafety.InitInv();
    Pipeline.InitInv(Init().pipe);
    InvHolds(Init(), actions);
    BacklogDelivers(s, r, limit, batches, final, w);
  }

  lemma BacklogDelivers(s: State, r: Publisher.Rid, limit: nat, batches: seq<seq<Outbox.OutboxRow>>,
                        final: Outbox.Table, w: Consumer.Wid)
    requires Inv(s) && Liveness.Ready(s.pipe, r, w) && Drain.Rounds(s.pipe.pub.table, limit, batches, final)
    requires limit > 0 && |Drain.RoutableBacklog(s.pipe.pub.table)| <= |batches| * limit
    ensures Resolving(s, Drain.RoundsActions(r, limit, batches, s.pipe.pub.nextReq), w)
  {
    NoneUnroutable(s);
    var polls := Drain.RoundsActions(r, limit, batches, s.pipe.pub.nextReq);
    Drain.DrainsOverRun(s.pipe.pub, r, limit, batches, final);
    Drain.RoundsCommit(r, limit, batches, s.pipe.pub.nextReq);
    FinishDelivers(s, r, polls, final, w);
  }

  lemma FinishDelivers(s: State, r: Publisher.Rid, polls: seq<Publisher.Action>, final: Outbox.Table, w: Consumer.Wid)
    requires Inv(s) && Liveness.Ready(s.pipe, r, w) && forall i | 0 <= i < |polls| :: !polls[i].Commit?
    requires Drain.Drains(s.pipe.pub, r, polls, final) && Drain.RoutableBacklog(final) == {}
    ensures Resolving(s, polls, w)
  {
    Liveness.FinishResolves(s.pipe, r, polls, final, w);
    Liveness.FinishCommits(s.pipe, polls, w);
    var moves := Liveness.Finish(s.pipe, polls, w);
    DeliveredRun(s, moves);
    InvHolds(s, Delivered(moves));
    var t := After(s, Delivered(moves));
    forall e: nat | e < |s.acc.outbox| && Liveness.Reachable(s.pipe, w, e) ensures Resolved(t, e) {
      assert RowOf(s.acc.outbox, s.pipe.pub.table, e) && RowOf(t.acc.outbox, t.pipe.pub.table, e);
      assert Outbox.Routable(s.pipe.pub.table[e].row);
      assert Liveness.Resolved(t.pipe, e) && t.pipe.pub.table[e].row.payload == MessageFor(t.acc.outbox[e], e);
      if Liveness.Mailed(t.pipe, MessageFor(t.acc.outbox[e], e)) {
        MailedIsMailed(t, e);
      }
    }
  }
}
