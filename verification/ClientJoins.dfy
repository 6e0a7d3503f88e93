/**
 From a request to the list of rooms: a created room is joined, every join sends the frame
 that is needed and lists its room, and what each event does to a room.
 */
module ClientJoins {
  import opened Wrappers
  import opened ClientModel
  import opened ClientRuns

  /** The rooms that a thread has sent join frames for, in order. */
  function FramesOf(sent: seq<Frame>, t: Tid): seq<string> {
    if sent == [] then []
    else
      var last := sent[|sent| - 1];
      FramesOf(sent[..|sent| - 1], t) + if last.JoinRoom? && last.sender == t then [last.roomId] else []
  }

  lemma OneMoreFrame(sent: seq<Frame>, f: Frame, t: Tid)
    ensures FramesOf(sent + [f], t) == FramesOf(sent, t) + if f.JoinRoom? && f.sender == t then [f.roomId] else []
  {
    assert (sent + [f])[..|sent|] == sent;
  }

  lemma NoMoreFrames(frames: seq<string>)
    ensures frames + [] == frames
  {
  }

  // ---------- a room keeps its id once no request will name it ----------

  predicate NotRenamed(handlers: map<string, Closure>, h: nat) {
    forall k | k in handlers && handlers[k].Created? :: handlers[k].room != h
  }

  lemma ListedNotRenamed(c: Client, h: nat)
    requires Inv(c) && h in c.listed
    ensures h < |c.rooms| && NotRenamed(c.handlers, h)
  {
    ListedKnown(c.rooms, c.listed);
  }

  lemma RegisterKeepsId(c: Client, r: nat, h: nat)
    requires r < |c.rooms| && NotRenamed(c.handlers, h)
    ensures NotRenamed(RegisterRoomEvents(c, r).handlers, h)
  {
  }

  lemma EventKeepsId(c: Client, name: string, text: string, h: nat)
    requires h < |c.rooms| && NotRenamed(c.handlers, h)
    ensures var c' := HandleEvent(c, name, text);
      && h < |c'.rooms| && c'.rooms[h].id == c.rooms[h].id && NotRenamed(c'.handlers, h)
  {
    hide RegisterRoomEvents, CreateKey, ErrorKey;
    if name in c.handlers && c.handlers[name].Created? {
      var room := c.handlers[name].room;
      if room < |c.rooms| {
        var named := c.(rooms := c.rooms[room := c.rooms[room].(id := text)]);
        RegisterKeepsId(named, room, h);
        RegisterTouchesHandlers(named, room);
      }
    }
  }

  lemma StepKeepsId(c: Client, s: Step, h: nat)
    requires Inv(c) && Enabled(c, s) && h < |c.rooms| && NotRenamed(c.handlers, h)
    ensures var c' := Next(c, s);
      && h < |c'.rooms| && c'.rooms[h].id == c.rooms[h].id && NotRenamed(c'.handlers, h)
  {
    hide Inv, HandleEvent, ForgetJoined;
    match s
    case Event(name, text) => EventKeepsId(c, name, text, h);
    case Forget => ForgetKeepsIds(c.rooms, c.listed);
    case _ =>
  }

  lemma {:induction false} RunKeepsId(c: Client, steps: seq<Step>, h: nat)
    requires Inv(c) && Run(c, steps).Some? && h < |c.rooms| && NotRenamed(c.handlers, h)
    ensures var c' := Run(c, steps).value; h < |c'.rooms| && c'.rooms[h].id == c.rooms[h].id
    decreases |steps|
  {
    hide Inv, Enabled, Next, NotRenamed;
    if steps == [] {
    } else {
      NextKeepsInv(c, steps[0]);
      StepKeepsId(c, steps[0], h);
      RunKeepsId(Next(c, steps[0]), steps[1..], h);
    }
  }

  /** An id that is in the list stays there. */
  lemma HoldsForGood(c: Client, steps: seq<Step>, id: string)
    requires Inv(c) && Run(c, steps).Some? && Holds(c.rooms, c.listed, id)
    ensures Holds(Run(c, steps).value.rooms, Run(c, steps).value.listed, id)
  {
    hide Inv, Run;
    var h :| h in c.listed && h < |c.rooms| && c.rooms[h].id == id;
    ListedNotRenamed(c, h);
    RunKeepsId(c, steps, h);
    ListOnlyGrows(c, steps);
    var c' := Run(c, steps).value;
    assert h in c'.listed;
  }

  // ---------- a thread in the middle of a join ----------

  lemma SendElsewhere(c: Client, u: Tid, t: Tid)
    requires Enabled(c, SendJoin(u)) && u != t
    ensures FramesOf(Next(c, SendJoin(u)).sent, t) == FramesOf(c.sent, t)
  {
    hide FramesOf;
    OneMoreFrame(c.sent, JoinRoom(u, c.joins[u].roomId), t);
    NoMoreFrames(FramesOf(c.sent, t));
  }

  /** Only its own two steps concern its join and its frames. */
  lemma StepElsewhere(c: Client, s: Step, t: Tid)
    requires Inv(c) && Enabled(c, s) && t in c.joins && s != SendJoin(t) && s != List(t)
    ensures var c' := Next(c, s);
      t in c'.joins && c'.joins[t] == c.joins[t] && FramesOf(c'.sent, t) == FramesOf(c.sent, t)
  {
    hide FramesOf, ForgetJoined, DistinctIds, JoinsNamed, Pending, FiredOnce, FiredKnown, OwnRooms, HandlersKnown, RestListed;
    match s
    case Create(uid) =>
      OneMoreFrame(c.sent, CreateNewRoom(uid), t);
      NoMoreFrames(FramesOf(c.sent, t));
    case SendJoin(u) => SendElsewhere(c, u, t);
    case Event(name, text) => EventElsewhere(c, name, text, t);
    case _ =>
  }

  lemma EventElsewhere(c: Client, name: string, text: string, t: Tid)
    requires t in c.joins && t != Manager
    ensures var c' := HandleEvent(c, name, text); t in c'.joins && c'.joins[t] == c.joins[t] && c'.sent == c.sent
  {
    hide CreateKey, ErrorKey;
  }

  lemma {:induction false} RunElsewhere(c: Client, steps: seq<Step>, t: Tid)
    requires Inv(c) && Run(c, steps).Some? && t in c.joins && SendJoin(t) !in steps && List(t) !in steps
    ensures var c' := Run(c, steps).value;
      Inv(c') && t in c'.joins && c'.joins[t] == c.joins[t] && FramesOf(c'.sent, t) == FramesOf(c.sent, t)
    decreases |steps|
  {
    hide Inv, Enabled, Next, FramesOf;
    if steps == [] {
    } else {
      assert steps[0] in steps;
      NextKeepsInv(c, steps[0]);
      StepElsewhere(c, steps[0], t);
      RunElsewhere(Next(c, steps[0]), steps[1..], t);
    }
  }

  lemma JoiningKnown(c: Client, t: Tid)
    requires Inv(c) && t in c.joins
    ensures c.joins[t].room < |c.rooms| && c.rooms[c.joins[t].room].id == c.joins[t].roomId
  {
  }

  lemma SendSends(c: Client, t: Tid)
    requires Inv(c) && Enabled(c, SendJoin(t))
    ensures var c', j := Next(c, SendJoin(t)), c.joins[t];
      && t in c'.joins && c'.joins[t] == Joining(j.room, j.roomId, true) && c'.listed == c.listed
      && FramesOf(c'.sent, t) == FramesOf(c.sent, t) + if c.connected && !c.rooms[j.room].joined then [j.roomId] else []
  {
    hide FramesOf, Inv;
    OneMoreFrame(c.sent, JoinRoom(t, c.joins[t].roomId), t);
    NoMoreFrames(FramesOf(c.sent, t));
  }

  lemma ListLists(c: Client, t: Tid)
    requires Inv(c) && Enabled(c, List(t))
    ensures var c' := Next(c, List(t)); c'.sent == c.sent && t !in c'.joins && Holds(c'.rooms, c'.listed, c.joins[t].roomId)
  {
    JoiningKnown(c, t);
    var c', h := Next(c, List(t)), c.joins[t].room;
    if !Holds(c.rooms, c.listed, c.joins[t].roomId) {
      assert h in c'.listed && c'.rooms[h].id == c.joins[t].roomId;
    }
  }

  /**
   Every join that any thread has begun, whatever the others do in between: its one frame is
   sent exactly if the connection stands and the room is not marked as joined at that moment,
   and once it is over the list holds the id for good.
   */
  lemma JoinSendsAndLists(steps: seq<Step>, t: Tid, before: seq<Step>, between: seq<Step>, after: seq<Step>)
    requires Run(START, steps).Some?
    requires t in Run(START, steps).value.joins && !Run(START, steps).value.joins[t].sent
    requires forall s | s in before + between :: s != SendJoin(t) && s != List(t)
    requires Run(Run(START, steps).value, before).Some? && Enabled(Run(Run(START, steps).value, before).value, SendJoin(t))
    requires Run(Next(Run(Run(START, steps).value, before).value, SendJoin(t)), between).Some?
    requires Enabled(Run(Next(Run(Run(START, steps).value, before).value, SendJoin(t)), between).value, List(t))
    requires Run(Next(Run(Next(Run(Run(START, steps).value, before).value, SendJoin(t)), between).value, List(t)), after).Some?
    ensures var c := Run(START, steps).value;
      var sending := Run(c, before).value;
      var listed := Next(Run(Next(sending, SendJoin(t)), between).value, List(t));
      var end := Run(listed, after).value;
      var Joining(h, id, _) := c.joins[t];
      && h < |sending.rooms|
      && FramesOf(listed.sent, t) == FramesOf(c.sent, t) + (if sending.connected && !sending.rooms[h].joined then [id] else [])
      && Holds(end.rooms, end.listed, id)
  {
    hide Run, Inv, Enabled, Next, FramesOf, Holds;
    RunKeepsInv(START, steps) by { StartHasInv(); }
    var c := Run(START, steps).value;
    assert forall s | s in before || s in between :: s in before + between;
    RunElsewhere(c, before, t);
    var sending := Run(c, before).value;
    JoiningKnown(sending, t);
    SendSends(sending, t);
    NextKeepsInv(sending, SendJoin(t));
    RunElsewhere(Next(sending, SendJoin(t)), between, t);
    var sent := Run(Next(sending, SendJoin(t)), between).value;
    ListLists(sent, t);
    NextKeepsInv(sent, List(t));
    HoldsForGood(Next(sent, List(t)), after, c.joins[t].roomId);
  }

  lemma StartHasInv()
    ensures Inv(START)
  {
  }

  // ---------- a created room ----------

  ghost predicate SameButFor(a: map<string, Closure>, b: map<string, Closure>, keys: set<string>) {
    forall k | k !in keys :: (k in b <==> k in a) && (k in a ==> b[k] == a[k])
  }

  /** The program's request: one frame if the connection stands, and a handler for each answer. */
  lemma CreateAsks(steps: seq<Step>, uid: string)
    requires Run(START, steps).Some?
    ensures var c := Run(START, steps).value; var c' := Next(c, Create(uid));
      && c'.sent == c.sent + (if c.connected then [CreateNewRoom(uid)] else [])
      && c'.rooms == c.rooms + [RoomObject("", false)] && c'.listed == c.listed && c'.joins == c.joins
      && uid + "-create" in c'.handlers && c'.handlers[uid + "-create"] == Created(|c.requests|, |c.rooms|)
      && uid + "-error" in c'.handlers && c'.handlers[uid + "-error"] == CreateFailed(|c.requests|)
      && SameButFor(c.handlers, c'.handlers, {uid + "-create", uid + "-error"})
      && (forall f | f in c'.fired :: f.request != |c.requests|)
  {
    RunKeepsInv(START, steps) by { StartHasInv(); }
    KeysDiffer(uid);
  }

  predicate Answered(c: Client, uid: string, text: string) {
    uid + "-create" in c.handlers && c.handlers[uid + "-create"].Created? && Enabled(c, Event(uid + "-create", text))
  }

  /** The answer with the room's id, as it is handled before the join. */
  ghost predicate Named(c: Client, c': Client, r: nat, h: nat, uid: string, text: string) {
    && h < |c.rooms| && c'.rooms == c.rooms[h := RoomObject(text, c.rooms[h].joined)]
    && c'.listed == c.listed && c'.fired == c.fired + [Fired(r, true)] && c'.sent == c.sent
    && c'.joins == c.joins[Manager := Joining(h, text, false)] && c'.connected && c'.phase == Waiting
    && (forall k | k in {uid + "-create", uid + "-error"} :: k !in c'.handlers)
    && (forall k | k in {"message-" + text, text + "-error"} && k !in {uid + "-create", uid + "-error"} ::
          k in c'.handlers && c'.handlers[k] == if k == "message-" + text then Message(h) else JoinFailed(h))
    && SameButFor(c.handlers, c'.handlers, {uid + "-create", uid + "-error", "message-" + text, text + "-error"})
  }

  lemma AnswerNames(c: Client, uid: string, text: string)
    requires Inv(c) && Answered(c, uid, text)
    ensures var Created(r, h) := c.handlers[uid + "-create"];
      var c' := Next(c, Event(uid + "-create", text));
      Named(c, c', r, h, uid, text) && NotRenamed(c'.handlers, h)
  {
    hide DistinctIds, JoinsNamed, FiredOnce, FiredKnown, HandlersKnown, RestListed;
    var Created(r, h) := c.handlers[uid + "-create"];
    KeyTells(uid, c.requests[r]);
  }

  lemma KeyTells(a: string, b: string)
    requires a + "-create" == CreateKey(b)
    ensures a == b
  {
    assert (a + "-create")[..|a|] == a && CreateKey(b)[..|b|] == b;
  }

  // ---------- the manager's join after an answer ----------

  /** While the manager is joining, the connection stands and nobody marks the room. */
  lemma ManagerStep(c: Client, s: Step)
    requires Inv(c) && Enabled(c, s) && Manager in c.joins && c.connected && s != List(Manager)
    ensures var c', j := Next(c, s), c.joins[Manager];
      && c'.connected && Manager in c'.joins
      && j.room < |c.rooms| && j.room < |c'.rooms| && c'.rooms[j.room].joined == c.rooms[j.room].joined
      && c'.joins[Manager] == j.(sent := j.sent || s == SendJoin(Manager))
      && FramesOf(c'.sent, Manager)
      == FramesOf(c.sent, Manager) + (if s == SendJoin(Manager) && !c.rooms[j.room].joined then [j.roomId] else [])
      && (s == SendJoin(Manager) ==> !j.sent)
  {
    hide FramesOf, ForgetJoined, DistinctIds, Pending, FiredOnce, FiredKnown, OwnRooms, HandlersKnown, RestListed;
    if s == SendJoin(Manager) {
      SendSends(c, Manager);
    } else {
      StepElsewhere(c, s, Manager);
      NoMoreFrames(FramesOf(c.sent, Manager));
    }
  }

  lemma {:induction false} ManagerRun(c: Client, steps: seq<Step>)
    requires Inv(c) && Run(c, steps).Some? && Manager in c.joins && c.connected && List(Manager) !in steps
    ensures var c', j := Run(c, steps).value, c.joins[Manager];
      && j.room < |c.rooms| && Manager in c'.joins
      && c'.joins[Manager] == j.(sent := j.sent || SendJoin(Manager) in steps)
      && FramesOf(c'.sent, Manager)
      == FramesOf(c.sent, Manager) + (if SendJoin(Manager) in steps && !c.rooms[j.room].joined then [j.roomId] else [])
      && (SendJoin(Manager) in steps ==> !j.sent)
    decreases |steps|
  {
    hide Inv, Enabled, Next, FramesOf;
    JoiningKnown(c, Manager);
    NoMoreFrames(FramesOf(c.sent, Manager));
    if steps == [] {
    } else {
      assert steps == [steps[0]] + steps[1..];
      NextKeepsInv(c, steps[0]);
      ManagerStep(c, steps[0]);
      ManagerRun(Next(c, steps[0]), steps[1..]);
      NoMoreFrames(FramesOf(Next(c, steps[0]).sent, Manager));
    }
  }

  lemma {:induction false} ManagerLists(c: Client, steps: seq<Step>)
    requires Inv(c) && Run(c, steps).Some? && Manager in c.joins && c.connected && List(Manager) in steps
    ensures var c' := Run(c, steps).value; Holds(c'.rooms, c'.listed, c.joins[Manager].roomId)
    decreases |steps|
  {
    hide Inv, Enabled, Next, FramesOf, Holds;
    assert steps == [steps[0]] + steps[1..];
    NextKeepsInv(c, steps[0]);
    if steps[0] == List(Manager) {
      ListLists(c, Manager);
      HoldsForGood(Next(c, steps[0]), steps[1..], c.joins[Manager].roomId);
    } else {
      ManagerStep(c, steps[0]);
      ManagerLists(Next(c, steps[0]), steps[1..]);
    }
  }

  /**
   The answer to a create request, in every continuation: the request is answered and the
   object has the id for good; the manager is in the middle of joining exactly this room
   until it lists it, and from then on the list holds the id.
   */
  lemma CreatedRoomIsJoined(steps: seq<Step>, uid: string, text: string, more: seq<Step>)
    requires Run(START, steps).Some? && Answered(Run(START, steps).value, uid, text)
    requires Run(Next(Run(START, steps).value, Event(uid + "-create", text)), more).Some?
    ensures var c := Run(START, steps).value;
      var Created(r, h) := c.handlers[uid + "-create"];
      var end := Run(Next(c, Event(uid + "-create", text)), more).value;
      && h < |end.rooms| && end.rooms[h].id == text
      && Fired(r, true) in end.fired
      && (List(Manager) in more ==> Holds(end.rooms, end.listed, text))
      && (List(Manager) !in more ==>
           Manager in end.joins && end.joins[Manager] == Joining(h, text, SendJoin(Manager) in more))
  {
    hide Run, Inv, Enabled, Next, FramesOf, Holds;
    RunKeepsInv(START, steps) by { StartHasInv(); }
    var c := Run(START, steps).value;
    var answer := Event(uid + "-create", text);
    var Created(r, h) := c.handlers[uid + "-create"];
    var joining := Next(c, answer);
    NextKeepsInv(c, answer);
    AnswerNames(c, uid, text);
    RunKeepsId(joining, more, h);
    ListOnlyGrows(joining, more);
    assert joining.fired[|c.fired|] == Fired(r, true);
    if List(Manager) in more {
      ManagerLists(joining, more);
    } else {
      ManagerRun(joining, more);
    }
  }

  /** When the manager lists the created room it has sent exactly one frame for it, or none if the room is marked as joined. */
  lemma CreatedRoomIsAskedFor(steps: seq<Step>, uid: string, text: string, more: seq<Step>)
    requires Run(START, steps).Some? && Answered(Run(START, steps).value, uid, text)
    requires var joining := Next(Run(START, steps).value, Event(uid + "-create", text));
      List(Manager) !in more && Run(joining, more).Some? && Enabled(Run(joining, more).value, List(Manager))
    ensures var c := Run(START, steps).value;
      var Created(_, h) := c.handlers[uid + "-create"];
      var listed := Next(Run(Next(c, Event(uid + "-create", text)), more).value, List(Manager));
      && h < |c.rooms|
      && FramesOf(listed.sent, Manager) == FramesOf(c.sent, Manager) + (if c.rooms[h].joined then [] else [text])
  {
    hide Run, Inv, Next, FramesOf;
    RunKeepsInv(START, steps) by { StartHasInv(); }
    var c := Run(START, steps).value;
    var answer := Event(uid + "-create", text);
    var joining := Next(c, answer);
    NextKeepsInv(c, answer);
    AnswerNames(c, uid, text);
    ManagerRun(joining, more);
    var ready := Run(joining, more).value;
    RunKeepsInv(joining, more);
    ListLists(ready, Manager);
  }

  // ---------- what the other events do ----------

  /** The answer that fails a request takes both of its handlers away and does nothing else. */
  lemma FailureAnswers(steps: seq<Step>, uid: string, text: string)
    requires Run(START, steps).Some?
    requires var c := Run(START, steps).value;
      uid + "-error" in c.handlers && c.handlers[uid + "-error"].CreateFailed? && Enabled(c, Event(uid + "-error", text))
    ensures var c := Run(START, steps).value;
      var c' := Next(c, Event(uid + "-error", text));
      && c' == c.(handlers := c'.handlers, fired := c.fired + [Fired(c.handlers[uid + "-error"].request, false)])
      && uid + "-create" !in c'.handlers && uid + "-error" !in c'.handlers
      && SameButFor(c.handlers, c'.handlers, {uid + "-create", uid + "-error"})
  {
    RunKeepsInv(START, steps) by { StartHasInv(); }
    var c := Run(START, steps).value;
    ErrorKeyTells(uid, c.requests[c.handlers[uid + "-error"].request]);
  }

  lemma ErrorKeyTells(a: string, b: string)
    requires a + "-error" == ErrorKey(b)
    ensures a == b
  {
    assert (a + "-error")[..|a|] == a && ErrorKey(b)[..|b|] == b;
  }

  /** A room is marked by the server's two messages and by no other, and only the room whose handler hears it. */
  lemma MessageMarks(steps: seq<Step>, name: string, text: string)
    requires Run(START, steps).Some?
    requires var c := Run(START, steps).value;
      name in c.handlers && c.handlers[name].Message? && Enabled(c, Event(name, text))
    ensures var c := Run(START, steps).value;
      var c', h := Next(c, Event(name, text)), c.handlers[name].room;
      && c' == c.(rooms := c'.rooms) && |c'.rooms| == |c.rooms| && h < |c.rooms|
      && (c'.rooms[h].joined <==> text == "blueboat_JOINED_ROOM" || (c.rooms[h].joined && text != "blueboat_REMOVED_FROM_ROOM"))
      && c'.rooms[h].id == c.rooms[h].id
      && (forall g | 0 <= g < |c.rooms| && g != h :: c'.rooms[g] == c.rooms[g])
  {
    RunKeepsInv(START, steps) by { StartHasInv(); }
  }

  /** A room that the program names: its object, its two handlers, and the join that its thread goes through. */
  lemma ProgramJoins(steps: seq<Step>, n: nat, roomId: string)
    requires Run(START, steps).Some? && Enabled(Run(START, steps).value, Join(n, roomId))
    ensures var c := Run(START, steps).value;
      var c', h := Next(c, Join(n, roomId)), |c.rooms|;
      && c' == c.(rooms := c.rooms + [RoomObject(roomId, false)], handlers := c'.handlers,
                  joins := c.joins[User(n) := Joining(h, roomId, false)])
      && "message-" + roomId in c'.handlers && c'.handlers["message-" + roomId] == Message(h)
      && roomId + "-error" in c'.handlers
      && (roomId + "-error" != "message-" + roomId ==> c'.handlers[roomId + "-error"] == JoinFailed(h))
      && SameButFor(c.handlers, c'.handlers, {"message-" + roomId, roomId + "-error"})
  {
  }
}
