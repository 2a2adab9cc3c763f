/** Who may change radio settings: the control arbiter of CSirServer, a lock with
    a waiting line, as the server object and over whole runs (sirserver.cpp). */
module Arbiter {
  import opened Scp

  type Client = nat

  datatype Reply = ACQUIRED | PENDING | RELEASED

  /** A reply to a client, a line with nothing in it, or a SET handed on to the
      radio for it. */
  datatype Output = Tell(client: Client, reply: Reply) | NewLine(client: Client) | Forward(client: Client)

  /** The word after CONTROL. */
  datatype Verb = ACQUIRE | RELEASE | UNKNOWN

  datatype Command =
    | Acquire(client: Client)
    | Release(client: Client)
    | Unknown(client: Client)
    | Drop(client: Client)
    | Set(client: Client, wellFormed: bool)

  // ------------------------------------------- the line, and what moves it

  ghost predicate NoDup(line: seq<Client>) {
    forall i, j :: 0 <= i < j < |line| ==> line[i] != line[j]
  }

  function Join(line: seq<Client>, c: Client): seq<Client> {
    if c in line then line else line + [c]
  }

  /** Everyone not in the given set, in the same order. */
  function Without(line: seq<Client>, gone: set<Client>): seq<Client> {
    if line == [] then []
    else (if line[0] in gone then [] else [line[0]]) + Without(line[1..], gone)
  }

  /** Control passes on when its holder leaves and someone waits. */
  function HandOff(line: seq<Client>, c: Client): seq<Output> {
    if |line| >= 2 && line[0] == c then [Tell(line[1], ACQUIRED)] else []
  }

  predicate Holds(line: seq<Client>, c: Client) { line != [] && line[0] == c }

  function Next(line: seq<Client>, x: Command): seq<Client> {
    match x
    case Acquire(c) => Join(line, c)
    case Release(c) => Without(line, {c})
    case Drop(c) => Without(line, {c})
    case Unknown(_) => line
    case Set(_, _) => line
  }

  function Asked(c: Client, verb: Verb): Command {
    match verb
    case ACQUIRE => Acquire(c)
    case RELEASE => Release(c)
    case UNKNOWN => Unknown(c)
  }

  function Out(line: seq<Client>, x: Command): seq<Output> {
    match x
    case Acquire(c) => [Tell(c, if Holds(Join(line, c), c) then ACQUIRED else PENDING)]
    case Release(c) => HandOff(line, c) + [Tell(c, RELEASED)]
    case Drop(c) => HandOff(line, c)
    case Unknown(c) => [NewLine(c)]
    case Set(c, ok) => if ok && Holds(line, c) then [Forward(c)] else []
  }

  lemma {:induction false} WithoutMembers(line: seq<Client>, gone: set<Client>)
    ensures forall c :: c in Without(line, gone) <==> c in line && c !in gone
  {
    if line != [] {
      WithoutMembers(line[1..], gone);
      assert line == [line[0]] + line[1..];
    }
  }

  lemma {:induction false} WithoutConcat(a: seq<Client>, b: seq<Client>, gone: set<Client>)
    ensures Without(a + b, gone) == Without(a, gone) + Without(b, gone)
  {
    if a == [] {
      assert a + b == b;
    } else {
      assert (a + b)[1..] == a[1..] + b;
      WithoutConcat(a[1..], b, gone);
    }
  }

  lemma {:induction false} WithoutNobody(line: seq<Client>, gone: set<Client>)
    requires forall c :: c in line ==> c !in gone
    ensures Without(line, gone) == line
  {
    if line != [] {
      WithoutNobody(line[1..], gone);
    }
  }

  lemma {:induction false} WithoutTwice(line: seq<Client>, x: set<Client>, y: set<Client>)
    ensures Without(Without(line, x), y) == Without(line, x + y)
  {
    if line != [] {
      WithoutTwice(line[1..], x, y);
      var head := if line[0] in x then [] else [line[0]];
      WithoutConcat(head, Without(line[1..], x), y);
    }
  }

  lemma {:induction false} WithoutNoDup(line: seq<Client>, gone: set<Client>)
    requires NoDup(line)
    ensures NoDup(Without(line, gone))
  {
    if line != [] {
      WithoutNoDup(line[1..], gone);
      WithoutMembers(line[1..], gone);
    }
  }

  /** A leaving holder is followed by the queue; any other leaver by nobody. */
  lemma LeaveLine(holder: Client, queue: seq<Client>, c: Client)
    requires NoDup([holder] + queue)
    ensures Without([holder] + queue, {c}) == if holder == c then queue else [holder] + Without(queue, {c})
  {
    var line := [holder] + queue;
    assert line[1..] == queue;
    if holder == c {
      assert forall i :: 0 <= i < |queue| ==> queue[i] == line[i + 1];
      WithoutNobody(queue, {c});
    }
  }

  lemma WithoutStep(kept: seq<Client>, rest: seq<Client>, gone: set<Client>)
    requires rest != []
    ensures kept + Without(rest, gone)
         == (if rest[0] in gone then kept else kept + [rest[0]]) + Without(rest[1..], gone)
  {
  }

  lemma JoinNoDup(line: seq<Client>, c: Client)
    requires NoDup(line)
    ensures NoDup(Join(line, c))
  {
  }

  // -------------------------------------------------------- the server object

  class SirServer {
    var controller: Option<Client>
    var controlQueue: seq<Client>
    var outbox: seq<Output>

    /** Controller and wait queue together are one line. */
    ghost function Line(): seq<Client>
      reads this
    {
      (if controller.None? then [] else [controller.value]) + controlQueue
    }

    ghost predicate Valid()
      reads this
    {
      (controller.None? ==> controlQueue == []) && NoDup(Line())
    }

    constructor ()
      ensures Valid() && Line() == [] && outbox == []
    {
      controller, controlQueue, outbox := None, [], [];
    }

    method IsWaitingForControl(client: Client) returns (waiting: bool)
      ensures waiting <==> client in controlQueue
    {
      for i := 0 to |controlQueue|
        invariant client !in controlQueue[..i]
      {
        if controlQueue[i] == client {
          return true;
        }
      }
      return false;
    }

    method HasControl(client: Client) returns (has: bool)
      requires Valid()
      ensures has <==> Holds(Line(), client)
    {
      has := controller == Some(client);
    }

    method AcquireControl(client: Client) returns (result: bool)
      requires Valid()
      modifies this`controller, this`controlQueue
      ensures Valid() && Line() == Join(old(Line()), client)
      ensures result <==> Holds(Line(), client)
    {
      ghost var line := Line();
      JoinNoDup(line, client);
      result := false;
      if controller == None && controlQueue == [] {
        controller := Some(client);
        result := true;
      } else {
        var has := HasControl(client);
        if has {
          result := true;
        } else {
          var waiting := IsWaitingForControl(client);
          if !waiting {
            controlQueue := controlQueue + [client];
            assert Line() == line + [client];
          }
        }
      }
      assert Line() == Join(line, client);
    }

    method Notify(client: Client, reply: Reply)
      modifies this`outbox
      ensures outbox == old(outbox) + [Tell(client, reply)]
    {
      outbox := outbox + [Tell(client, reply)];
    }

    /** The erasing loop of ReleaseControl. */
    method LeaveQueue(client: Client)
      modifies this`controlQueue
      ensures controlQueue == Without(old(controlQueue), {client})
    {
      var i := 0;
      ghost var kept: seq<Client>, rest := [], controlQueue;
      while i < |controlQueue|
        invariant 0 <= i <= |controlQueue|
        invariant kept == controlQueue[..i] && rest == controlQueue[i..]
        invariant kept + Without(rest, {client}) == Without(old(controlQueue), {client})
        decreases |controlQueue| - i
      {
        WithoutStep(kept, rest, {client});
        if controlQueue[i] == client {
          controlQueue := controlQueue[..i] + controlQueue[i + 1..];
        } else {
          kept := kept + [rest[0]];
          i := i + 1;
        }
        rest := rest[1..];
      }
    }

    method ReleaseControl(client: Client)
      requires Valid()
      modifies this
      ensures Valid() && Line() == Without(old(Line()), {client})
      ensures outbox == old(outbox) + HandOff(old(Line()), client)
    {
      ghost var line := Line();
      WithoutNoDup(line, {client});
      if controller.Some? {
        LeaveLine(controller.value, controlQueue, client);
      }
      var has := HasControl(client);
      if has {
        if controlQueue == [] {
          controller := None;
        } else {
          HandOver();
        }
      } else {
        LeaveQueue(client);
      }
    }

    method HandOver()
      requires controlQueue != []
      modifies this
      ensures controller.Some? && Line() == old(controlQueue)
      ensures outbox == old(outbox) + [Tell(old(controlQueue)[0], ACQUIRED)]
    {
      controller := Some(controlQueue[0]);
      controlQueue := controlQueue[1..];
      Notify(controller.value, ACQUIRED);
    }

    /** CONTROL ACQUIRE, CONTROL RELEASE, and any other CONTROL, which changes
        nothing and gets an empty line for an answer. */
    method ProcessControl(client: Client, verb: Verb)
      requires Valid()
      modifies this
      ensures Valid() && Line() == Next(old(Line()), Asked(client, verb))
      ensures outbox == old(outbox) + Out(old(Line()), Asked(client, verb))
    {
      match verb
      case ACQUIRE =>
        var ok := AcquireControl(client);
        Notify(client, if ok then ACQUIRED else PENDING);
      case RELEASE =>
        ReleaseControl(client);
        Notify(client, RELEASED);
      case UNKNOWN =>
        outbox := outbox + [NewLine(client)];
    }

    /** A lost or quitting client. */
    method OnDrop(client: Client)
      requires Valid()
      modifies this
      ensures Valid() && Line() == Next(old(Line()), Drop(client))
      ensures outbox == old(outbox) + Out(old(Line()), Drop(client))
    {
      ReleaseControl(client);
    }

    /** A SET command: validated, then handed to the radio. */
    method ProcessSet(client: Client, wellFormed: bool)
      requires Valid()
      modifies this`outbox
      ensures outbox == old(outbox) + if wellFormed && controller == Some(client) then [Forward(client)] else []
      ensures Valid() && Line() == Next(old(Line()), Set(client, wellFormed))
      ensures outbox == old(outbox) + Out(old(Line()), Set(client, wellFormed))
    {
      var has := HasControl(client);
      if has && wellFormed {
        outbox := outbox + [Forward(client)];
      }
    }
  }

  // -------------------------------------------------------------- whole runs

  function RunLine(line: seq<Client>, xs: seq<Command>): seq<Client> {
    if xs == [] then line else Next(RunLine(line, xs[..|xs| - 1]), xs[|xs| - 1])
  }

  function RunOut(line: seq<Client>, xs: seq<Command>): seq<Output> {
    if xs == [] then []
    else
      var init := xs[..|xs| - 1];
      RunOut(line, init) + Out(RunLine(line, init), xs[|xs| - 1])
  }

  /** Clients that gave control up, or their place, at some point. */
  function Leavers(xs: seq<Command>): set<Client> {
    if xs == [] then {}
    else Leavers(xs[..|xs| - 1]) + Leaver(xs[|xs| - 1])
  }

  function Leaver(x: Command): set<Client> {
    if x.Release? || x.Drop? then {x.client} else {}
  }

  lemma {:induction false} LineHasNoDuplicates(line: seq<Client>, xs: seq<Command>)
    requires NoDup(line)
    ensures NoDup(RunLine(line, xs))
  {
    if xs != [] {
      var init, x := xs[..|xs| - 1], xs[|xs| - 1];
      LineHasNoDuplicates(line, init);
      if x.Release? || x.Drop? {
        WithoutNoDup(RunLine(line, init), {x.client});
      }
    }
  }

  /** The part of the line in front of a client. */
  function Ahead(line: seq<Client>, c: Client): seq<Client> {
    if line == [] || line[0] == c then [] else [line[0]] + Ahead(line[1..], c)
  }

  lemma {:induction false} AheadSplit(line: seq<Client>, c: Client)
    requires c in line
    ensures |Ahead(line, c)| < |line| && line[|Ahead(line, c)|] == c
    ensures line[..|Ahead(line, c)|] == Ahead(line, c) && c !in Ahead(line, c)
  {
    if line[0] != c {
      assert line == [line[0]] + line[1..];
      AheadSplit(line[1..], c);
    }
  }

  lemma {:induction false} AheadPrefix(a: seq<Client>, c: Client, b: seq<Client>)
    requires c !in a
    ensures Ahead(a + [c] + b, c) == a
  {
    if a == [] {
      assert [] + [c] + b == [c] + b;
    } else {
      assert (a + [c] + b)[1..] == a[1..] + [c] + b;
      AheadPrefix(a[1..], c, b);
    }
  }

  lemma AheadNext(line: seq<Client>, c: Client, x: Command)
    requires c in line && c !in Leaver(x)
    ensures c in Next(line, x) && Ahead(Next(line, x), c) == Without(Ahead(line, c), Leaver(x))
  {
    AheadSplit(line, c);
    var a, b := Ahead(line, c), line[|Ahead(line, c)| + 1..];
    assert line == a + [c] + b;
    if x.Release? || x.Drop? {
      var gone := {x.client};
      WithoutConcat(a + [c], b, gone);
      WithoutConcat(a, [c], gone);
      WithoutNobody([c], gone);
      WithoutMembers(a, gone);
      AheadPrefix(Without(a, gone), c, Without(b, gone));
    } else {
      WithoutNobody(a, {});
      if x.Acquire? && x.client !in line {
        assert line + [x.client] == a + [c] + (b + [x.client]);
        AheadPrefix(a, c, b + [x.client]);
      }
    }
  }

  /** Fairness, exactly: as long as a client stays in line, those in front of it
      are those who were there before and have not left since, in the same
      order. So nobody overtakes, and its position never grows. */
  lemma {:induction false} Fairness(line: seq<Client>, c: Client, xs: seq<Command>)
    requires c in line && c !in Leavers(xs)
    ensures c in RunLine(line, xs)
    ensures Ahead(RunLine(line, xs), c) == Without(Ahead(line, c), Leavers(xs))
  {
    if xs == [] {
      WithoutNobody(Ahead(line, c), {});
    } else {
      var init, x := xs[..|xs| - 1], xs[|xs| - 1];
      Fairness(line, c, init);
      AheadNext(RunLine(line, init), c, x);
      WithoutTwice(Ahead(line, c), Leavers(init), Leaver(x));
    }
  }

  /** A waiting client has gained control exactly when everyone ahead of it has
      released or dropped. */
  lemma GainsControl(line: seq<Client>, c: Client, xs: seq<Command>)
    requires c in line && c !in Leavers(xs)
    ensures Holds(RunLine(line, xs), c) <==> forall d :: d in Ahead(line, c) ==> d in Leavers(xs)
  {
    Fairness(line, c, xs);
    WithoutMembers(Ahead(line, c), Leavers(xs));
    AheadSplit(RunLine(line, xs), c);
    var w := Without(Ahead(line, c), Leavers(xs));
    if w != [] {
      assert w[0] in w;
    }
  }

  /** While a client holds control every SET that reaches the radio is its own. */
  lemma {:induction false} Exclusion(line: seq<Client>, c: Client, xs: seq<Command>)
    requires Holds(line, c) && c !in Leavers(xs)
    ensures Holds(RunLine(line, xs), c)
    ensures forall x :: x in RunOut(line, xs) && x.Forward? ==> x.client == c
  {
    if xs != [] {
      var init, x := xs[..|xs| - 1], xs[|xs| - 1];
      Exclusion(line, c, init);
      GainsControl(line, c, xs);
    }
  }

  /** The clients whose SETs reach the radio, in order. */
  function Forwarded(out: seq<Output>): seq<Client> {
    if out == [] then []
    else Forwarded(out[..|out| - 1]) + if out[|out| - 1].Forward? then [out[|out| - 1].client] else []
  }

  /** The clients that issued a well-formed SET at the head of the line, in order. */
  function SetAtHead(line: seq<Client>, xs: seq<Command>): seq<Client> {
    if xs == [] then []
    else
      var init, x := xs[..|xs| - 1], xs[|xs| - 1];
      var now := RunLine(line, init);
      SetAtHead(line, init)
        + if x.Set? && x.wellFormed && now != [] && now[0] == x.client then [x.client] else []
  }

  lemma {:induction false} ForwardedConcat(a: seq<Output>, b: seq<Output>)
    ensures Forwarded(a + b) == Forwarded(a) + Forwarded(b)
  {
    if b == [] {
      assert a + b == a;
    } else {
      assert (a + b)[..|a + b| - 1] == a + b[..|b| - 1];
      ForwardedConcat(a, b[..|b| - 1]);
    }
  }

  lemma ForwardedShort(x: Output, y: Output)
    ensures Forwarded([x]) == if x.Forward? then [x.client] else []
    ensures Forwarded([x, y]) == Forwarded([x]) + Forwarded([y])
  {
    assert [x][..0] == [] && [y][..0] == [] && [x, y][..1] == [x];
  }

  lemma ForwardedBy(line: seq<Client>, x: Command)
    ensures Forwarded(Out(line, x))
         == if x.Set? && x.wellFormed && line != [] && line[0] == x.client then [x.client] else []
  {
    var out := Out(line, x);
    if |out| == 1 {
      ForwardedShort(out[0], out[0]);
      assert out == [out[0]];
    } else if |out| == 2 {
      ForwardedShort(out[0], out[1]);
      assert out == [out[0], out[1]];
    }
  }

  /** Over every run exactly the well-formed SETs of whoever heads the line at the
      time reach the radio, each once and in order. */
  lemma {:induction false} ForwardedExactly(line: seq<Client>, xs: seq<Command>)
    ensures Forwarded(RunOut(line, xs)) == SetAtHead(line, xs)
  {
    if xs != [] {
      var init, x := xs[..|xs| - 1], xs[|xs| - 1];
      ForwardedExactly(line, init);
      ForwardedConcat(RunOut(line, init), Out(RunLine(line, init), x));
      ForwardedBy(RunLine(line, init), x);
    }
  }

  predicate NobodyAsks(xs: seq<Command>) { forall x :: x in xs ==> !x.Acquire? }

  /** Without control there is no SET: on a server nobody has asked for control,
      nothing reaches the radio. */
  lemma {:induction false} NoControlNoSet(xs: seq<Command>)
    requires NobodyAsks(xs)
    ensures RunLine([], xs) == [] && Forwarded(RunOut([], xs)) == []
  {
    if xs != [] {
      var init := xs[..|xs| - 1];
      assert xs[|xs| - 1] in xs;
      NoControlNoSet(init);
      ForwardedExactly([], xs);
      ForwardedExactly([], init);
    }
  }

  predicate To(x: Output, c: Client) { !x.Forward? && x.client == c }

  /** Every CONTROL command gets one answer, behind whatever else it causes: lines
      to its sender and to nobody else's question; nothing else is answered. */
  lemma OneAnswer(line: seq<Client>, x: Command)
    requires NoDup(line)
    ensures var out := Out(line, x);
            && (x.Acquire? || x.Release? || x.Unknown? ==>
                  && out != [] && To(out[|out| - 1], x.client)
                  && forall k :: 0 <= k < |out| - 1 ==> !To(out[k], x.client))
            && (x.Drop? || x.Set? ==> forall k :: 0 <= k < |out| ==> !To(out[k], x.client))
            && (x.Unknown? ==> out == [NewLine(x.client)] && Next(line, x) == line)
  {
  }

  /** What a client concludes from the replies it got; a dropped one, nothing. */
  function Believes(c: Client, xs: seq<Command>): Reply {
    if xs == [] then RELEASED
    else
      var init, x := xs[..|xs| - 1], xs[|xs| - 1];
      if x == Drop(c) then RELEASED
      else LastTold(c, Believes(c, init), Out(RunLine([], init), x))
  }

  function LastTold(c: Client, before: Reply, out: seq<Output>): Reply {
    if out == [] then before
    else
      var x := out[|out| - 1];
      if x.Tell? && x.client == c then x.reply else LastTold(c, before, out[..|out| - 1])
  }

  lemma LastToldShort(c: Client, before: Reply, x: Output, y: Output)
    ensures LastTold(c, before, [x]) == if x.Tell? && x.client == c then x.reply else before
    ensures LastTold(c, before, [x, y])
         == if y.Tell? && y.client == c then y.reply else if x.Tell? && x.client == c then x.reply else before
  {
    assert [x][..0] == [] && [x, y][..1] == [x];
  }

  /** Where a client stands, in the words of the protocol. */
  function Standing(line: seq<Client>, c: Client): Reply {
    if Holds(line, c) then ACQUIRED else if c in line then PENDING else RELEASED
  }

  lemma LeaveStanding(line: seq<Client>, c: Client, d: Client)
    requires NoDup(line)
    ensures Standing(Without(line, {d}), c)
         == if c == d then RELEASED
            else if |line| >= 2 && line[0] == d && line[1] == c then ACQUIRED
            else Standing(line, c)
  {
    WithoutMembers(line, {d});
    if line != [] {
      var holder, queue := line[0], line[1..];
      assert line == [holder] + queue;
      LeaveLine(holder, queue, d);
      if holder == d {
        assert c in queue ==> c != d;
      }
    }
  }

  /** The replies never mislead: at every moment of every run, what a client was
      told last is whether it holds control, waits for it, or neither. */
  lemma {:induction false} RepliesAreTrue(c: Client, xs: seq<Command>)
    ensures Believes(c, xs) == Standing(RunLine([], xs), c)
  {
    if xs != [] {
      var init, x := xs[..|xs| - 1], xs[|xs| - 1];
      RepliesAreTrue(c, init);
      LineHasNoDuplicates([], init);
      ReplyStep(c, RunLine([], init), x);
    }
  }

  lemma ReplyStep(c: Client, line: seq<Client>, x: Command)
    requires NoDup(line)
    ensures (if x == Drop(c) then RELEASED else LastTold(c, Standing(line, c), Out(line, x)))
         == Standing(Next(line, x), c)
  {
    var before := Standing(line, c);
    match x
    case Acquire(d) =>
      LastToldShort(c, before, Out(line, x)[0], Out(line, x)[0]);
    case Release(d) =>
      LeaveStanding(line, c, d);
      LastToldShort(c, before, Tell(d, RELEASED), Tell(d, RELEASED));
      if |line| >= 2 && line[0] == d {
        assert Out(line, x) == [Tell(line[1], ACQUIRED), Tell(d, RELEASED)];
        LastToldShort(c, before, Tell(line[1], ACQUIRED), Tell(d, RELEASED));
      } else {
        assert Out(line, x) == [Tell(d, RELEASED)];
      }
    case Drop(d) =>
      LeaveStanding(line, c, d);
      if |line| >= 2 {
        LastToldShort(c, before, Tell(line[1], ACQUIRED), Tell(line[1], ACQUIRED));
      }
    case Unknown(d) =>
      LastToldShort(c, before, NewLine(d), NewLine(d));
    case Set(d, ok) =>
      LastToldShort(c, before, Forward(d), Forward(d));
  }

  // ------------------------------------------------------- clients that left

  function Dropped(xs: seq<Command>): set<Client> {
    if xs == [] then {}
    else Dropped(xs[..|xs| - 1]) + if xs[|xs| - 1].Drop? then {xs[|xs| - 1].client} else {}
  }

  ghost predicate Live(line: seq<Client>, dropped: set<Client>) {
    forall c :: c in line ==> c !in dropped
  }

  /** Nobody in line has been dropped, now or at any earlier moment. */
  ghost predicate AlwaysLive(xs: seq<Command>) {
    && Live(RunLine([], xs), Dropped(xs))
    && (xs != [] ==> AlwaysLive(xs[..|xs| - 1]))
  }

  /** No client asks for control after it was dropped. */
  predicate QuietAfterDrop(xs: seq<Command>) {
    xs != [] ==>
      var init, x := xs[..|xs| - 1], xs[|xs| - 1];
      QuietAfterDrop(init) && (x.Acquire? ==> x.client !in Dropped(init))
  }

  lemma LiveStep(line: seq<Client>, dropped: set<Client>, x: Command)
    requires Live(line, dropped)
    ensures Live(Next(line, x), dropped + if x.Drop? then {x.client} else {})
       <==> (x.Acquire? ==> x.client !in dropped)
  {
    if x.Release? || x.Drop? {
      WithoutMembers(line, {x.client});
    } else if x.Acquire? {
      assert x.client in Next(line, x);
    }
  }

  /** Control stays among the living exactly if the dead keep quiet; commands a
      client sent behind its QUIT are what breaks it. */
  lemma {:induction false} LiveExactlyIfQuiet(xs: seq<Command>)
    ensures AlwaysLive(xs) <==> QuietAfterDrop(xs)
  {
    if xs != [] {
      var init, x := xs[..|xs| - 1], xs[|xs| - 1];
      LiveExactlyIfQuiet(init);
      if AlwaysLive(init) {
        LiveStep(RunLine([], init), Dropped(init), x);
      }
    }
  }
}
