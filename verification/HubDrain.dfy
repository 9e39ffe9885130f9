/** The drain loop as a run of the transition system, and what one drain achieves. */
module HubDrain {
  import opened Wrappers
  import opened FamilyInbox
  import opened Brainstem
  import opened HubRuns
  import HubSessions

  /** The atomic steps the drain loop takes from position `i` of its snapshot. */
  function DrainSteps(h: Hub, id: nat, m: MemberId, snapshot: Inbox, io: nat -> DrainIo, i: nat): seq<Step>
    requires h.family.Knows(m) && i <= |snapshot|
    decreases |snapshot| - i
  {
    if i == |snapshot| then [EndDrain(id)]
    else
      var letter := snapshot[i].letter;
      if DrainGoesOn(h, m, letter, io(i)) then
        [DrainTurn(id, io(i).turn), CompleteDrained(id, io(i).completedAt, io(i).flushOk)]
        + DrainSteps(DrainOne(h, m, letter, io(i)), id, m, snapshot, io, i + 1)
      else [DrainTurn(id, io(i).turn)]
  }

  /** One loop iteration is a turn step and, if the member replied, a completion step. */
  lemma IterationRefines(s: System, id: nat, m: MemberId, snapshot: Inbox, io: DrainIo, i: nat)
    requires i < |snapshot| && s.hub.family.Valid() && s.hub.family.Knows(m)
    requires id in s.drains && s.drains[id] == Drain(m, snapshot, i, None)
    ensures var letter, t := snapshot[i].letter, Next(s, DrainTurn(id, io.turn));
            if DrainGoesOn(s.hub, m, letter, io) then
              Next(t, CompleteDrained(id, io.completedAt, io.flushOk))
              == System(DrainOne(s.hub, m, letter, io), s.drains[id := Drain(m, snapshot, i + 1, None)])
            else t == System(DrainOne(s.hub, m, letter, io), s.drains - {id})
  {
    hide TurnState, WithAnswer;
    var letter := snapshot[i].letter;
    TurnLeavesFamily(s.hub, letter.person, m, letter.prompt, io.turn);
    match TurnReply(s.hub, letter.person, m, io.turn)
    case Replied(reply) =>
      var t := Next(s, DrainTurn(id, io.turn));
      assert t.drains[id] == Drain(m, snapshot, i, Some(reply));
      var u := Next(t, CompleteDrained(id, io.completedAt, io.flushOk));
      assert u.drains == s.drains[id := Drain(m, snapshot, i + 1, None)];
    case _ =>
  }

  /** The whole loop is a run of atomic steps, so every invariant over runs holds of it. */
  lemma {:induction false} DrainRefines(s: System, id: nat, m: MemberId, snapshot: Inbox, io: nat -> DrainIo, i: nat)
    requires i <= |snapshot| && s.hub.family.Valid() && s.hub.family.Knows(m)
    requires id in s.drains && s.drains[id] == Drain(m, snapshot, i, None)
    ensures Run(s, DrainSteps(s.hub, id, m, snapshot, io, i))
         == System(DrainFrom(s.hub, m, snapshot, io, i).hub, s.drains - {id})
    decreases |snapshot| - i
  {
    hide Run, DrainGoesOn, DrainOne;
    if i == |snapshot| {
      RunOne(s, EndDrain(id));
    } else {
      var letter := snapshot[i].letter;
      IterationRefines(s, id, m, snapshot, io(i), i);
      if DrainGoesOn(s.hub, m, letter, io(i)) {
        var next := DrainOne(s.hub, m, letter, io(i));
        DrainOneValid(s.hub, m, letter, io(i));
        var t := System(next, s.drains[id := Drain(m, snapshot, i + 1, None)]);
        RunTwoMore(s, DrainTurn(id, io(i).turn), CompleteDrained(id, io(i).completedAt, io(i).flushOk),
                   DrainSteps(next, id, m, snapshot, io, i + 1));
        DrainRefines(t, id, m, snapshot, io, i + 1);
        assert t.drains - {id} == s.drains - {id};
      } else {
        RunOne(s, DrainTurn(id, io(i).turn));
      }
    }
  }

  lemma DrainOneValid(h: Hub, m: MemberId, letter: Letter, io: DrainIo)
    requires h.family.Valid() && h.family.Knows(m)
    ensures DrainOne(h, m, letter, io).family.Valid()
  {
  }

  /** One iteration answers exactly the first unanswered message, or none. */
  lemma IterationAnswers(h: Hub, m: MemberId, letter: Letter, io: DrainIo, k: nat)
    requires h.family.Valid() && h.family.Knows(m)
    requires var box := h.family.inbox[m];
             UniqueIds(box) && AnsweredUpTo(box, k) && k < |box| && box[k].letter == letter
    ensures var before, after := h.family.inbox[m], DrainOne(h, m, letter, io).family.inbox[m];
            && UniqueIds(after) && |after| == |before|
            && (forall j :: 0 <= j < |before| ==> after[j].letter == before[j].letter)
            && (forall j :: k < j < |before| ==> after[j] == before[j])
            && AnsweredUpTo(after, if DrainGoesOn(h, m, letter, io) then k + 1 else k)
            && (!DrainGoesOn(h, m, letter, io) ==> after == before)
  {
    hide TurnState, TurnReply;
    var box := h.family.inbox[m];
    TurnLeavesFamily(h, letter.person, m, letter.prompt, io.turn);
    IndexOfUnique(box, k);
  }

  /** From position `i`, the drain answers the messages up to where it stops and touches no other. */
  lemma {:induction false} DrainAnswers(h: Hub, m: MemberId, snapshot: Inbox, io: nat -> DrainIo, i: nat, k: nat)
    requires h.family.Valid() && h.family.Knows(m) && i <= |snapshot|
    requires var box := h.family.inbox[m];
             && UniqueIds(box) && AnsweredUpTo(box, k + i) && k + |snapshot| == |box|
             && forall j :: 0 <= j < |snapshot| ==> box[k + j].letter == snapshot[j].letter
    ensures var drained := DrainFrom(h, m, snapshot, io, i);
            var before, after, n := h.family.inbox[m], drained.hub.family.inbox[m], k + drained.answered;
            && |after| == |before| && AnsweredUpTo(after, n)
            && (forall j :: n <= j < |before| ==> after[j] == before[j])
    decreases |snapshot| - i
  {
    hide DrainOne, DrainGoesOn, UniqueIds;
    if i < |snapshot| {
      var letter := snapshot[i].letter;
      IterationAnswers(h, m, letter, io(i), k + i);
      if DrainGoesOn(h, m, letter, io(i)) {
        DrainOneValid(h, m, letter, io(i));
        DrainAnswers(DrainOne(h, m, letter, io(i)), m, snapshot, io, i + 1, k);
      }
    }
  }

  // ----- which messages a wake answers -------------------------------------------------

  /** Where a sender first appears in the queue; past its end if nowhere. */
  function FirstFrom(queue: Inbox, person: string): (i: nat)
    ensures i <= |queue| && (i < |queue| ==> queue[i].letter.person == person)
    ensures forall j :: 0 <= j < i ==> queue[j].letter.person != person
  {
    if queue == [] || queue[0].letter.person == person then 0 else 1 + FirstFrom(queue[1..], person)
  }

  /** The sender of message `i` has a session with `m`, or gets one at its first message. */
  predicate HasSession(h: Hub, m: MemberId, queue: Inbox, io: nat -> DrainIo, i: nat)
    requires i < |queue|
  {
    var person := queue[i].letter.person;
    HubSessions.Key(person, m) in h.sessions.entries || io(FirstFrom(queue, person)).turn.mintOk
  }

  /** The outside world lets the turn of message `i` through. */
  predicate Answerable(h: Hub, m: MemberId, queue: Inbox, io: nat -> DrainIo, i: nat)
    requires i < |queue|
  {
    io(i).turn.cortex.Some? && HasSession(h, m, queue, io, i)
  }

  /** Sessions at position `i` of a drain: those at its start, and those of the senders before. */
  ghost predicate SessionsAt(start: Hub, h: Hub, m: MemberId, queue: Inbox, i: nat) {
    forall person :: HubSessions.Key(person, m) in h.sessions.entries
                <==> HubSessions.Key(person, m) in start.sessions.entries || FirstFrom(queue, person) < i
  }

  lemma KeyOfSender(p: string, q: string, m: MemberId)
    ensures HubSessions.Key(p, m) == HubSessions.Key(q, m) ==> p == q
  {
    if HubSessions.Key(p, m) == HubSessions.Key(q, m) {
      assert HubSessions.Key(p, m)[..|p|] == p && HubSessions.Key(q, m)[..|q|] == q;
    }
  }

  /** One iteration goes on exactly when its message is answerable, and adds its sender's session. */
  lemma IterationSessions(start: Hub, h: Hub, m: MemberId, queue: Inbox, io: nat -> DrainIo, i: nat)
    requires h.family.Knows(m) && i < |queue| && SessionsAt(start, h, m, queue, i)
    requires forall j :: 0 <= j < i ==> Answerable(start, m, queue, io, j)
    ensures var letter := queue[i].letter;
            && DrainGoesOn(h, m, letter, io(i)) == Answerable(start, m, queue, io, i)
            && TurnReply(h, letter.person, m, io(i).turn).Raised? == !HasSession(start, m, queue, io, i)
            && (DrainGoesOn(h, m, letter, io(i)) ==>
                  SessionsAt(start, DrainOne(h, m, letter, io(i)), m, queue, i + 1))
  {
    hide WithAnswer;
    var letter := queue[i].letter;
    var first := FirstFrom(queue, letter.person);
    assert first <= i;
    if first < i {
      assert Answerable(start, m, queue, io, first);
      assert HasSession(start, m, queue, io, first);
    }
    var after := DrainOne(h, m, letter, io(i));
    if DrainGoesOn(h, m, letter, io(i)) {
      DrainOneKeys(h, m, letter, io(i));
      forall person
        ensures HubSessions.Key(person, m) in after.sessions.entries
           <==> HubSessions.Key(person, m) in start.sessions.entries || FirstFrom(queue, person) < i + 1
      {
        KeyOfSender(person, letter.person, m);
        var f := FirstFrom(queue, person);
        assert f < |queue| ==> queue[f].letter.person == person;
      }
    }
  }

  lemma DrainOneKeys(h: Hub, m: MemberId, letter: Letter, io: DrainIo)
    requires h.family.Knows(m) && DrainGoesOn(h, m, letter, io)
    ensures DrainOne(h, m, letter, io).sessions.entries.Keys
         == h.sessions.entries.Keys + {HubSessions.Key(letter.person, m)}
  {
    hide WithAnswer;
  }

  /** The drain stops at the first message that is not answerable, and raises if what it lacked was
      a session. */
  lemma {:induction false} DrainStops(start: Hub, h: Hub, m: MemberId, queue: Inbox, io: nat -> DrainIo, i: nat)
    requires h.family.Knows(m) && i <= |queue| && SessionsAt(start, h, m, queue, i)
    requires forall j :: 0 <= j < i ==> Answerable(start, m, queue, io, j)
    ensures var drained := DrainFrom(h, m, queue, io, i);
            && (forall j :: 0 <= j < drained.answered ==> Answerable(start, m, queue, io, j))
            && (drained.answered < |queue| ==> !Answerable(start, m, queue, io, drained.answered))
            && (drained.raised <==> drained.answered < |queue| && !HasSession(start, m, queue, io, drained.answered))
    decreases |queue| - i
  {
    hide DrainOne, DrainGoesOn, SessionsAt, Answerable, HasSession, TurnReply;
    if i < |queue| {
      IterationSessions(start, h, m, queue, io, i);
      if DrainGoesOn(h, m, queue[i].letter, io(i)) {
        DrainStops(start, DrainOne(h, m, queue[i].letter, io(i)), m, queue, io, i + 1);
      }
    }
  }

  lemma StartSessions(h: Hub, m: MemberId, queue: Inbox)
    ensures SessionsAt(h, h, m, queue, 0)
  {
  }

  /** A wake answers the oldest queued messages up to the first one whose turn the cortex or the
      session store fails; nothing stays queued if and only if there is no such message. */
  lemma WakeAnswersOldest(h: Hub, m: MemberId, io: nat -> DrainIo)
    requires h.family.Valid() && h.family.Knows(m) && InOrder(h.family.inbox[m])
    ensures var queue := QueuedOf(h.family.inbox[m]);
            var drained := DrainFrom(h, m, queue, io, 0);
            var left := QueuedOf(drained.hub.family.inbox[m]);
            && left == queue[drained.answered..]
            && (forall j :: 0 <= j < drained.answered ==> Answerable(h, m, queue, io, j))
            && (left != [] ==> !Answerable(h, m, queue, io, drained.answered))
            && (left == [] <==> forall i :: 0 <= i < |queue| ==> Answerable(h, m, queue, io, i))
  {
    hide DrainFrom, QueuedOf, Answerable, InOrder, SessionsAt;
    WakeLeavesTail(h, m, io);
    StartSessions(h, m, QueuedOf(h.family.inbox[m]));
    DrainStops(h, h, m, QueuedOf(h.family.inbox[m]), io, 0);
  }

  lemma WakeLeavesTail(h: Hub, m: MemberId, io: nat -> DrainIo)
    requires h.family.Valid() && h.family.Knows(m) && InOrder(h.family.inbox[m])
    ensures var queue := QueuedOf(h.family.inbox[m]);
            var drained := DrainFrom(h, m, queue, io, 0);
            QueuedOf(drained.hub.family.inbox[m]) == queue[drained.answered..]
  {
    hide DrainFrom, QueuedOf, AnsweredUpTo;
    var box := h.family.inbox[m];
    var k: nat :| AnsweredUpTo(box, k);
    QueuedIsTail(box, k);
    var queue := QueuedOf(box);
    TailMatches(box, k);
    DrainAnswers(h, m, queue, io, 0, k);
    var drained := DrainFrom(h, m, queue, io, 0);
    var after, n := drained.hub.family.inbox[m], drained.answered;
    QueuedIsTail(after, k + n);
    SameTails(box, after, k, n);
  }

  lemma TailMatches(box: Inbox, k: nat)
    requires AnsweredUpTo(box, k)
    ensures k + |box[k..]| == |box| && forall j :: 0 <= j < |box[k..]| ==> box[k + j].letter == box[k..][j].letter
  {
  }

  lemma SameTails(box: Inbox, after: Inbox, k: nat, n: nat)
    requires k + n <= |box| == |after| && forall j :: k + n <= j < |box| ==> after[j] == box[j]
    ensures after[k + n..] == box[k..][n..]
  {
  }

  /** A member that wakes while the cortex is down is awake with its queue untouched. */
  lemma AwakeWithQueue(m: MemberId, letter: Letter, now: Time, io: nat -> DrainIo)
    requires io(0).turn.cortex.None?
    ensures var message := Message(letter, Queued, None, None);
            var f := Family(map[m := "asleep"], map[m := [message]], map[m := NoLog], StoreFile.Absent);
            var h := Hub(f, HubSessions.Loaded(HubSessions.Absent), map[], []);
            var woken := h.(family := WithPresence(f, m, "awake", now, true));
            var after := DrainFrom(woken, m, QueuedOf(woken.family.inbox[m]), io, 0).hub;
            after.family.presence[m] == "awake" && QueuedOf(after.family.inbox[m]) == [message]
  {
    var message := Message(letter, Queued, None, None);
    assert [message][1..] == [];
    assert QueuedOf([message]) == [message];
  }
}
