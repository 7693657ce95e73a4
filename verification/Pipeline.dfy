/**
 Pipelining on one connection (redis/conn.go Send, Receive, Do): `pending`, and which reply belongs
 to which command, with and without pub/sub pushes in between.

 `wire` is what the server has still to be heard of, in the order it will arrive. Each command
 adds at least one answer; pushes may come before any answer.
 */
module Pipeline {

  /** `Sentinel` is the reply that carries the sentinel the pool had the server echo. */
  datatype Kind = Ordinary | Error | Sentinel

  datatype Item = Answer(command: nat, kind: Kind) | Push

  /** The error Do returns beside its reply. */
  datatype Failure = Fine | ErrorReply(answer: Item)

  predicate IsError(item: Item) { item.Answer? && item.kind.Error? }

  predicate IsSentinel(item: Item) { item.Answer? && item.kind.Sentinel? }

  /** The first error reply, if there is one. */
  function FirstError(items: seq<Item>): Failure {
    if items == [] then Fine else if IsError(items[0]) then ErrorReply(items[0]) else FirstError(items[1..])
  }

  /** Fine exactly where no reply is an error; else the error with none before it. */
  lemma {:induction false} FirstErrorIs(items: seq<Item>)
    ensures FirstError(items).Fine? <==> NoError(items)
    ensures FirstError(items).ErrorReply? ==>
      exists i :: 0 <= i < |items| && IsError(items[i]) && FirstError(items).answer == items[i]
                  && forall j :: 0 <= j < i ==> !IsError(items[j])
  {
    if items != [] && !IsError(items[0]) {
      var rest := items[1..];
      FirstErrorIs(rest);
      assert forall i :: 1 <= i < |items| ==> items[i] == rest[i - 1];
      assert forall i :: 0 <= i < |rest| ==> rest[i] == items[i + 1];
      if FirstError(rest).ErrorReply? {
        var i :| 0 <= i < |rest| && IsError(rest[i]) && FirstError(rest).answer == rest[i]
                 && forall j :: 0 <= j < i ==> !IsError(rest[j]);
        assert IsError(items[i + 1]) && forall j :: 0 <= j < i + 1 ==> !IsError(items[j]);
      }
    }
  }

  lemma {:induction false} FirstErrorSnoc(items: seq<Item>, item: Item)
    ensures FirstError(items + [item])
            == if FirstError(items).Fine? && IsError(item) then ErrorReply(item) else FirstError(items)
  {
    if items == [] {
      assert [item][1..] == [];
    } else {
      assert (items + [item])[0] == items[0] && (items + [item])[1..] == items[1..] + [item];
      FirstErrorSnoc(items[1..], item);
    }
  }

  function Answers(wire: seq<Item>): nat {
    if wire == [] then 0 else (if wire[0].Answer? then 1 else 0) + Answers(wire[1..])
  }

  lemma {:induction false} AnswersConcat(a: seq<Item>, b: seq<Item>)
    ensures Answers(a + b) == Answers(a) + Answers(b)
  {
    if a == [] {
      assert a + b == b;
    } else {
      assert (a + b)[0] == a[0] && (a + b)[1..] == a[1..] + b;
      AnswersConcat(a[1..], b);
    }
  }

  lemma {:induction false} AnswersAtMost(wire: seq<Item>)
    ensures Answers(wire) <= |wire|
  {
    if wire != [] { AnswersAtMost(wire[1..]); }
  }

  /** What a command adds to the wire: at least one answer, all of them its own. */
  predicate AnswersCommand(items: seq<Item>, command: nat) {
    Answers(items) >= 1 && forall i :: 0 <= i < |items| && items[i].Answer? ==> items[i].command == command
  }

  predicate IsAnswerTo(item: Item, command: int) { item.Answer? && item.command == command }

  /** Without pub/sub every command has one answer and nothing else arrives: the wire holds the
      answers to the last `pending` commands, in order. */
  predicate Paired(pending: nat, sent: nat, wire: seq<Item>) {
    |wire| == pending <= sent && forall i :: 0 <= i < |wire| ==> IsAnswerTo(wire[i], sent - pending + i)
  }

  class Conn {
    var pending: nat
    var wire: seq<Item>
    var sent: nat

    /** `pending` never exceeds the answers still owed. */
    ghost predicate Valid()
      reads this
    {
      pending <= Answers(wire) && forall i :: 0 <= i < |wire| && wire[i].Answer? ==> wire[i].command < sent
    }

    constructor ()
      ensures Valid() && pending == 0 && wire == [] && sent == 0 && Paired(pending, sent, wire)
    {
      pending, wire, sent := 0, [], 0;
    }

    method Send(items: seq<Item>)
      requires Valid() && AnswersCommand(items, sent)
      modifies this
      ensures Valid() && pending == old(pending) + 1 && sent == old(sent) + 1 && wire == old(wire) + items
      ensures old(Paired(pending, sent, wire)) && |items| == 1 ==> Paired(pending, sent, wire)
    {
      AnswersConcat(wire, items);
      SingleAnswer(items, sent);
      pending := pending + 1;
      wire := wire + items;
      sent := sent + 1;
    }

    /** A push published while nothing is owed, or after everything owed. */
    method Pushed()
      requires Valid()
      modifies `wire
      ensures Valid() && wire == old(wire) + [Push]
    {
      AnswersConcat(wire, [Push]);
      wire := wire + [Push];
    }

    method Receive() returns (item: Item)
      requires Valid() && wire != []
      modifies `pending, `wire
      ensures Valid() && item == old(wire)[0] && wire == old(wire)[1..]
      ensures pending == if old(pending) > 0 then old(pending) - 1 else 0
      ensures old(Paired(pending, sent, wire)) ==> Paired(pending, sent, wire) && IsAnswerTo(item, sent - old(pending))
    {
      item, wire := wire[0], wire[1..];
      if pending > 0 { pending := pending - 1; }
    }

    /** Do with a command: reads `pending + 1` items, of which there are enough whatever the pushes,
        and returns the last, with the first error reply among them. Without pub/sub the last is the
        answer to its own command. */
    method Do(items: seq<Item>) returns (reply: Item, failure: Failure)
      requires Valid() && AnswersCommand(items, sent)
      modifies this
      ensures Valid() && pending == 0 && sent == old(sent) + 1
      ensures old(pending) + 1 <= |old(wire) + items| && wire == (old(wire) + items)[old(pending) + 1..]
      ensures reply == (old(wire) + items)[old(pending)]
      ensures failure == FirstError((old(wire) + items)[..old(pending) + 1])
      ensures failure.Fine? <==> NoError((old(wire) + items)[..old(pending) + 1])
      ensures old(Paired(pending, sent, wire)) && |items| == 1 ==>
        IsAnswerTo(reply, old(sent)) && Paired(pending, sent, wire) && failure == FirstError(old(wire) + items)
    {
      var p := pending;
      pending := 0;
      AnswersConcat(wire, items);
      AnswersAtMost(wire + items);
      SingleAnswer(items, sent);
      ghost var all := wire + items;
      wire := wire + items;
      sent := sent + 1;
      reply, failure := Push, Fine;
      var i := 0;
      while i <= p
        invariant i <= p + 1 && wire == all[i..] && pending == 0 && sent == old(sent) + 1
        invariant i > 0 ==> reply == all[i - 1]
        invariant failure == FirstError(all[..i])
      {
        FirstErrorSnoc(all[..i], all[i]);
        assert all[..i] + [all[i]] == all[..i + 1];
        reply, wire := wire[0], wire[1..];
        if IsError(reply) && failure.Fine? { failure := ErrorReply(reply); }
        i := i + 1;
      }
      assert |all| == i ==> all[..i] == all;
      FirstErrorIs(all[..i]);
    }

    /** Do("") returns at once when nothing is pending, and else reads the pending replies. */
    method DoNothing() returns (read: nat)
      requires Valid()
      modifies `pending, `wire
      ensures Valid() && pending == 0 && read == old(pending) && read <= |old(wire)| && wire == old(wire)[read..]
    {
      AnswersAtMost(wire);
      var p := pending;
      pending := 0;
      read := 0;
      while read < p
        invariant read <= p && wire == old(wire)[read..] && pending == 0
      {
        wire := wire[1..];
        read := read + 1;
      }
    }

    /** The receive loop of Close: up to the sentinel, or to the first error reply. */
    method AwaitSentinel() returns (outcome: Awaited)
      requires Valid()
      modifies `pending, `wire
      ensures Valid() && outcome == Await(old(pending), old(wire)).0
      ensures pending == Await(old(pending), old(wire)).1 && wire == Await(old(pending), old(wire)).2
    {
      while wire != []
        invariant Valid() && Await(pending, wire) == Await(old(pending), old(wire))
        decreases |wire|
      {
        var item := Receive();
        if IsError(item) { return Failed; }
        if IsSentinel(item) { return Found; }
      }
      outcome := Starved;
    }

    /** The clean-up of a subscribed connection: UNSUBSCRIBE, PUNSUBSCRIBE and ECHO, the receive loop
        and Do(""). The loop finds the sentinel exactly when no error reply is on the wire before it,
        and then nothing is unread and Do("") waits for nothing. After an error reply Do("") reads
        the replies still pending, all of which are coming. The loop never ends exactly when neither
        an error nor the sentinel is ever to come. */
    method CloseSubscribed(unsub: seq<Item>, punsub: seq<Item>, echo: seq<Item>) returns (outcome: Awaited, waited: nat)
      requires Valid() && OnlyLast(wire + unsub + punsub + echo)
      requires AnswersCommand(unsub, sent) && AnswersCommand(punsub, sent + 1) && AnswersCommand(echo, sent + 2)
      modifies this
      ensures sent == old(sent) + 3
      ensures var all, p := old(wire) + unsub + punsub + echo, old(pending) + 3;
        && outcome == Await(p, all).0
        && (outcome.Starved? <==> Quiet(all))
        && (outcome.Found? <==> NoError(all) && IsSentinel(all[|all| - 1]))
        && (outcome.Found? ==> waited == 0 && wire == [])
        && (!outcome.Starved? ==> Valid() && pending == 0 && waited == Await(p, all).1 <= |Await(p, all).2|
                                  && wire == Await(p, all).2[waited..])
    {
      ghost var all := wire + unsub + punsub + echo;
      ghost var p := pending + 3;
      Send(unsub);
      Send(punsub);
      Send(echo);
      AnswersAtMost(all);
      AwaitOutcome(p, all);
      outcome := AwaitSentinel();
      if outcome.Starved? { return outcome, 0; }
      waited := DoNothing();
    }
  }

  // ---------------------------------------------------------------- Waiting for the sentinel

  datatype Awaited = Found | Failed | Starved

  /** How the receive loop of Close ends, what is pending then, and what is left on the wire. The
      loop starves when it has read everything and met neither an error nor the sentinel. */
  function Await(pending: nat, wire: seq<Item>): (Awaited, nat, seq<Item>) {
    if wire == [] then (Starved, pending, [])
    else
      var p: nat := if pending > 0 then pending - 1 else 0;
      if IsError(wire[0]) then (Failed, p, wire[1..])
      else if IsSentinel(wire[0]) then (Found, p, wire[1..])
      else Await(p, wire[1..])
  }

  /** The loop keeps pending within what is owed. */
  lemma {:induction false} AwaitOwed(pending: nat, wire: seq<Item>)
    requires pending <= Answers(wire)
    ensures Await(pending, wire).1 <= Answers(Await(pending, wire).2)
    decreases |wire|
  {
    if wire != [] && !IsError(wire[0]) && !IsSentinel(wire[0]) {
      AwaitOwed(if pending > 0 then pending - 1 else 0, wire[1..]);
    }
  }

  predicate Stops(item: Item) { IsError(item) || IsSentinel(item) }

  /** Where the loop stops at the `i`-th reply: what is left, and what is still pending. */
  lemma {:induction false} AwaitStopsAt(pending: nat, wire: seq<Item>, i: nat)
    requires i < |wire| && Stops(wire[i]) && forall k :: 0 <= k < i ==> !Stops(wire[k])
    ensures Await(pending, wire).0 == if IsError(wire[i]) then Failed else Found
    ensures Await(pending, wire).1 == if pending > i then pending - i - 1 else 0
    ensures Await(pending, wire).2 == wire[i + 1..]
    decreases i
  {
    if i > 0 {
      assert wire[1..][i - 1] == wire[i] && forall k :: 0 <= k < i - 1 ==> wire[1..][k] == wire[k + 1];
      AwaitStopsAt(if pending > 0 then pending - 1 else 0, wire[1..], i - 1);
    }
  }

  predicate NoError(items: seq<Item>) { forall i :: 0 <= i < |items| ==> !IsError(items[i]) }

  /** Nothing the loop stops at. */
  predicate Quiet(items: seq<Item>) { forall i :: 0 <= i < |items| ==> !IsError(items[i]) && !IsSentinel(items[i]) }

  /** Nothing but the last item can be the sentinel. */
  predicate OnlyLast(items: seq<Item>) { forall i :: 0 <= i < |items| - 1 ==> !IsSentinel(items[i]) }

  /** Where nothing but the last item can be the sentinel: the loop finds it exactly when no error
      is in the way, and has then read everything. */
  lemma {:induction false} AwaitOutcome(pending: nat, wire: seq<Item>)
    requires wire != [] && OnlyLast(wire)
    ensures var r := Await(pending, wire);
      && (r.0.Starved? <==> Quiet(wire))
      && (r.0.Found? <==> NoError(wire) && IsSentinel(wire[|wire| - 1]))
      && (r.0.Found? ==> r.2 == [])
    decreases |wire|
  {
    var rest := wire[1..];
    if IsError(wire[0]) || IsSentinel(wire[0]) {
    } else if rest == [] {
      assert Await(pending, wire).0 == Starved;
    } else {
      AwaitOutcome(if pending > 0 then pending - 1 else 0, rest);
      assert forall i :: 1 <= i < |wire| ==> wire[i] == rest[i - 1];
      assert forall i :: 0 <= i < |rest| ==> rest[i] == wire[i + 1];
    }
  }

  lemma SingleAnswer(items: seq<Item>, command: nat)
    requires AnswersCommand(items, command)
    ensures |items| == 1 ==> IsAnswerTo(items[0], command)
  {
    if |items| == 1 {
      assert items[1..] == [] && Answers(items[1..]) == 0;
      assert items[0].Answer?;
    }
  }
}
