/** The API client's silent sign-in refresh, shared by every call that needs it
    (qhFetch and _refreshInFlight in qh-api.jsx). */
module FetchClient {
  import opened Options

  datatype Outcome = Result | Failure

  /** One qhFetch call: its request is out, it awaits a refresh, or it ended. `exempt` marks
      the two sign-in paths. */
  datatype Call =
    | Sent(retried: bool, exempt: bool)
    | Waiting(on: nat)
    | Ended(outcome: Outcome)

  /** What comes back for a request: an answer that is not 401, a 401, or nothing. */
  datatype Reply = Answered(ok: bool) | Unauthorized | NoReply

  datatype Answer = Granted(token: nat) | Denied

  /** A refresh on the wire: which one, the token its cookie carried, and the server's answer
      once it has given one. */
  datatype Flight = Flight(id: nat, token: nat, answer: Option<Answer>)

  /** The server's side: the current single-use token, and whether the session ended,
      and whether it ended because a spent token came back. */
  datatype Session = Session(current: nat, revoked: bool, reused: bool)

  /** `inFlight` is the module's variable, the refresh that a 401 joins; `out` are the
      refreshes on the wire, whatever it says; `started` counts them. `behind` records that a
      granted answer was lost and not made good since. */
  datatype World = World(calls: seq<Call>, sends: seq<nat>, cookie: nat, inFlight: Option<nat>, out: seq<Flight>, started: nat,
                         session: Session, behind: bool)

  datatype Event =
    | Start(exempt: bool)
    | Receive(id: nat, reply: Reply)
    | Serve(k: nat, allowed: bool, grace: bool)
    | Arrive(k: nat)
    | Drop(k: nat)

  predicate Possible(w: World, e: Event) {
    match e
    case Start(_) => true
    case Receive(id, _) => id < |w.calls| && w.calls[id].Sent?
    case Serve(k, _, _) => k < |w.out| && w.out[k].answer.None?
    case Arrive(k) => k < |w.out| && w.out[k].answer.Some?
    case Drop(k) => k < |w.out|
  }

  /** One refresh at the server. The spent token of the last rotation still works for a
      short grace, and later it ends the session. `allowed` is the account check. */
  function ServeRefresh(s: Session, token: nat, allowed: bool, grace: bool): (Session, Answer) {
    if s.revoked then (s, Denied)
    else if token == s.current then
      if allowed then (s.(current := s.current + 1), Granted(s.current + 1))
      else (s.(current := s.current + 1, revoked := true), Denied)
    else if token + 1 == s.current then
      if !grace then (s.(revoked := true, reused := true), Denied)
      else if allowed then (s, Granted(s.current)) else (s.(revoked := true), Denied)
    else (s, Denied)
  }

  /** A call after refresh `on` ended: those that awaited it go on, or out. */
  function Resumed(c: Call, on: nat, granted: bool): Call {
    if c != Waiting(on) then c else if granted then Sent(true, false) else Ended(Failure)
  }

  function ResumeAll(calls: seq<Call>, on: nat, granted: bool): seq<Call> {
    seq(|calls|, i requires 0 <= i < |calls| => Resumed(calls[i], on, granted))
  }

  function ResumedSends(calls: seq<Call>, sends: seq<nat>, on: nat): seq<nat>
    requires |sends| == |calls|
  {
    seq(|calls|, i requires 0 <= i < |calls| => if calls[i] == Waiting(on) then sends[i] + 1 else sends[i])
  }

  function Without(out: seq<Flight>, k: nat): seq<Flight>
    requires k < |out|
  {
    out[..k] + out[k + 1..]
  }

  predicate Valid(w: World) { |w.sends| == |w.calls| }

  function Step(w: World, e: Event): (r: World)
    requires Valid(w) && Possible(w, e)
    ensures Valid(r)
  {
    match e
    case Start(exempt) => w.(calls := w.calls + [Sent(false, exempt)], sends := w.sends + [1])
    case Receive(id, reply) =>
      var c := w.calls[id];
      if reply.Unauthorized? && !c.retried && !c.exempt then
        if w.inFlight.Some? then w.(calls := w.calls[id := Waiting(w.inFlight.value)])
        else w.(calls := w.calls[id := Waiting(w.started)], inFlight := Some(w.started),
                out := w.out + [Flight(w.started, w.cookie, None)], started := w.started + 1)
      else w.(calls := w.calls[id := Ended(if reply == Answered(true) then Result else Failure)])
    case Serve(k, allowed, grace) =>
      var (s, answer) := ServeRefresh(w.session, w.out[k].token, allowed, grace);
      w.(session := s, out := w.out[k := w.out[k].(answer := Some(answer))])
    case Arrive(k) =>
      var f := w.out[k];
      var settled := w.(inFlight := None, out := Without(w.out, k));
      if f.answer.value.Granted? then
        settled.(cookie := f.answer.value.token, behind := false,
                 calls := ResumeAll(w.calls, f.id, true), sends := ResumedSends(w.calls, w.sends, f.id))
      else settled.(calls := ResumeAll(w.calls, f.id, false))
    case Drop(k) =>
      var f := w.out[k];
      w.(inFlight := None, out := Without(w.out, k), calls := ResumeAll(w.calls, f.id, false),
         behind := w.behind || (f.answer.Some? && f.answer.value.Granted?))
  }

  /** The module's variable and its callers, changed across asynchronous steps. */
  class ApiClient {
    var calls: seq<Call>
    var sends: seq<nat>
    var cookie: nat
    var refreshInFlight: Option<nat>
    var session: Session
    var out: seq<Flight>
    var started: nat
    ghost var behind: bool

    ghost function State(): World
      reads this
    {
      World(calls, sends, cookie, refreshInFlight, out, started, session, behind)
    }

    constructor (token: nat)
      ensures State() == Fresh(token)
    {
      calls, sends, cookie, refreshInFlight, out, started := [], [], token, None, [], 0;
      session, behind := Session(token, false, false), false;
    }

    method Fetch(exempt: bool) returns (id: nat)
      requires Valid(State())
      modifies this
      ensures id == |old(calls)| && State() == Step(old(State()), Start(exempt))
    {
      id := |calls|;
      calls := calls + [Sent(false, exempt)];
      sends := sends + [1];
    }

    method OnReply(id: nat, reply: Reply)
      requires Valid(State()) && Possible(State(), Receive(id, reply))
      modifies this`calls, this`refreshInFlight, this`out, this`started
      ensures State() == Step(old(State()), Receive(id, reply))
    {
      var c := calls[id];
      if reply.Unauthorized? && !c.retried && !c.exempt {
        if refreshInFlight.None? {
          refreshInFlight := Some(started);
          out := out + [Flight(started, cookie, None)];
          started := started + 1;
        }
        calls := calls[id := Waiting(refreshInFlight.value)];
      } else {
        calls := calls[id := Ended(if reply == Answered(true) then Result else Failure)];
      }
    }

    /** Every caller that awaited this refresh goes on: with a second send, or out. */
    method ResumeWaiters(on: nat, granted: bool)
      requires Valid(State())
      modifies this`calls, this`sends
      ensures calls == ResumeAll(old(calls), on, granted)
      ensures sends == if granted then ResumedSends(old(calls), old(sends), on) else old(sends)
    {
      var i := 0;
      while i < |calls|
        invariant 0 <= i <= |calls| == |sends| == |old(calls)|
        invariant forall j :: 0 <= j < i ==> calls[j] == Resumed(old(calls)[j], on, granted)
        invariant forall j :: 0 <= j < i ==> sends[j] == if granted && old(calls)[j] == Waiting(on) then old(sends)[j] + 1 else old(sends)[j]
        invariant forall j :: i <= j < |calls| ==> calls[j] == old(calls)[j] && sends[j] == old(sends)[j]
      {
        if calls[i] == Waiting(on) {
          if granted {
            sends := sends[i := sends[i] + 1];
            calls := calls[i := Sent(true, false)];
          } else {
            calls := calls[i := Ended(Failure)];
          }
        }
        i := i + 1;
      }
    }

    method OnRefreshSettled(k: nat, arrived: bool)
      requires Valid(State()) && Possible(State(), if arrived then Arrive(k) else Drop(k))
      modifies this
      ensures State() == Step(old(State()), if arrived then Arrive(k) else Drop(k))
    {
      var f := out[k];
      refreshInFlight := None;
      out := out[..k] + out[k + 1..];
      if arrived && f.answer.value.Granted? {
        cookie := f.answer.value.token;
        behind := false;
        ResumeWaiters(f.id, true);
      } else {
        behind := behind || (!arrived && f.answer.Some? && f.answer.value.Granted?);
        ResumeWaiters(f.id, false);
      }
    }
  }

  function Fresh(token: nat): World { World([], [], token, None, [], 0, Session(token, false, false), false) }

  // ---- The invariant of every interleaving ----

  ghost predicate CallOk(c: Call, sends: nat) {
    match c
    case Sent(retried, exempt) => sends == (if retried then 2 else 1) && (exempt ==> !retried)
    case Waiting(_) => sends == 1
    case Ended(_) => 1 <= sends <= 2
  }

  /** The server holds the page's token, or the next one while that answer is on its way or
      lost; an ended session grants nothing. */
  predicate TokensAgree(w: World) {
    var answered := w.out != [] && w.out[0].answer.Some?;
    if w.session.revoked then answered ==> w.out[0].answer == Some(Denied)
    else if answered then w.out[0].answer == Some(Granted(w.session.current)) && w.cookie + 1 == w.session.current
    else w.session.current == if w.behind then w.cookie + 1 else w.cookie
  }

  predicate Awaits(w: World, on: nat) { exists i :: 0 <= i < |w.calls| && w.calls[i] == Waiting(on) }

  ghost predicate Inv(w: World) {
    && Valid(w)
    && (forall i :: 0 <= i < |w.calls| ==> CallOk(w.calls[i], w.sends[i]))
    && |w.out| <= 1 && (w.inFlight == if w.out == [] then None else Some(w.out[0].id))
    && (forall i :: 0 <= i < |w.calls| && w.calls[i].Waiting? ==> w.inFlight == Some(w.calls[i].on))
    && (w.inFlight.Some? ==> Awaits(w, w.inFlight.value))
    && (w.out != [] ==> w.out[0].token == w.cookie)
    && (w.session.reused ==> w.session.revoked)
    && TokensAgree(w)
  }

  lemma StillAwaits(w: World, r: World, on: nat)
    requires Awaits(w, on) && |r.calls| >= |w.calls|
    requires forall i :: 0 <= i < |w.calls| && w.calls[i].Waiting? ==> r.calls[i] == w.calls[i]
    ensures Awaits(r, on)
  {
    var i :| 0 <= i < |w.calls| && w.calls[i] == Waiting(on);
    assert r.calls[i] == Waiting(on);
  }

  lemma ReplyKeepsInv(w: World, id: nat, reply: Reply)
    requires Inv(w) && Possible(w, Receive(id, reply))
    ensures Inv(Step(w, Receive(id, reply)))
  {
    var r := Step(w, Receive(id, reply));
    if w.inFlight.Some? {
      StillAwaits(w, r, w.inFlight.value);
    } else if r.inFlight.Some? {
      assert r.calls[id] == Waiting(r.inFlight.value);
    }
  }

  lemma StepKeepsInv(w: World, e: Event)
    requires Inv(w) && Possible(w, e)
    ensures Inv(Step(w, e))
  {
    match e
    case Start(_) => if w.inFlight.Some? { StillAwaits(w, Step(w, e), w.inFlight.value); }
    case Receive(id, reply) => ReplyKeepsInv(w, id, reply);
    case Serve(_, _, _) => if w.inFlight.Some? { StillAwaits(w, Step(w, e), w.inFlight.value); }
    case Arrive(_) =>
    case Drop(_) =>
  }

  function Run(w: World, es: seq<Event>): (r: Option<World>)
    requires Valid(w)
    ensures r.Some? ==> Valid(r.value)
    decreases |es|
  {
    if es == [] then Some(w) else if Possible(w, es[0]) then Run(Step(w, es[0]), es[1..]) else None
  }

  lemma {:induction false} RunKeepsInv(w: World, es: seq<Event>)
    requires Inv(w) && Run(w, es).Some?
    ensures Inv(Run(w, es).value)
    decreases |es|
  {
    if es != [] {
      StepKeepsInv(w, es[0]);
      RunKeepsInv(Step(w, es[0]), es[1..]);
    }
  }

  /** In every interleaving of any number of calls: never two refreshes on the wire, callers
      wait only while one is, no call is sent more than twice, and on a live session the
      refresh presents the server's current token exactly when no granted answer was lost. */
  lemma SingleFlight(token: nat, es: seq<Event>)
    requires Run(Fresh(token), es).Some?
    ensures var w := Run(Fresh(token), es).value;
      && |w.out| <= 1
      && (w.out != [] <==> exists i :: 0 <= i < |w.calls| && w.calls[i].Waiting?)
      && (forall i :: 0 <= i < |w.calls| ==> 1 <= w.sends[i] <= 2)
      && (!w.session.revoked && w.out != [] && w.out[0].answer.None? ==>
            (w.out[0].token == w.session.current <==> !w.behind) && w.session.current <= w.out[0].token + 1)
  {
    RunKeepsInv(Fresh(token), es);
  }

  /** The server takes a refresh for a replayed token exactly when a granted answer was
      lost and the grace is over. */
  lemma ReuseOnlyAfterLoss(token: nat, es: seq<Event>, k: nat, allowed: bool, grace: bool)
    requires Run(Fresh(token), es).Some? && Possible(Run(Fresh(token), es).value, Serve(k, allowed, grace))
    requires !Run(Fresh(token), es).value.session.revoked
    ensures var w := Run(Fresh(token), es).value;
      Step(w, Serve(k, allowed, grace)).session.reused <==> w.behind && !grace
  {
    RunKeepsInv(Fresh(token), es);
  }

  lemma {:induction false} NoLossNeverBehind(w: World, es: seq<Event>)
    requires Inv(w) && !w.behind && !w.session.reused && Run(w, es).Some? && forall e: Event :: e in es ==> !e.Drop?
    ensures !Run(w, es).value.behind && !Run(w, es).value.session.reused
    decreases |es|
  {
    if es != [] {
      StepKeepsInv(w, es[0]);
      assert es[0] in es;
      forall e: Event | e in es[1..] ensures !e.Drop? { assert e in es; }
      NoLossNeverBehind(Step(w, es[0]), es[1..]);
    }
  }

  /** With no refresh lost on the wire, one page never presents a spent token, however
      its calls interleave. */
  lemma NoLossNoReplay(token: nat, es: seq<Event>)
    requires Run(Fresh(token), es).Some? && forall e: Event :: e in es ==> !e.Drop?
    ensures var w := Run(Fresh(token), es).value;
      !w.session.reused && (!w.session.revoked && w.out != [] && w.out[0].answer.None? ==> w.out[0].token == w.session.current)
  {
    NoLossNeverBehind(Fresh(token), es);
    RunKeepsInv(Fresh(token), es);
  }

  /** A loss does happen: rotated at the server, dropped on the way back, and the next
      401 presents the spent token. */
  lemma LostAnswerReplays()
    ensures var es := [Start(false), Receive(0, Unauthorized), Serve(0, true, true), Drop(0), Start(false), Receive(1, Unauthorized)];
      var w := Run(Fresh(7), es);
      w.Some? && w.value.out == [Flight(1, 7, None)] && w.value.session.current == 8
  {
    var a, b, c := Start(false), Receive(0, Unauthorized), Serve(0, true, true);
    var d, e := Drop(0), Receive(1, Unauthorized);
    var w1 := Step(Fresh(7), a);
    var w2 := Step(w1, b);
    var w3 := Step(w2, c);
    var w4 := Step(w3, d);
    var w5 := Step(w4, a);
    var w6 := Step(w5, e);
    assert [a, b, c, d, a, e] == [a] + [b, c, d, a, e];
  }

  // ---- Every call ends ----

  function Rank(c: Call): nat {
    match c case Sent(retried, _) => (if retried then 1 else 6) case Waiting(_) => 3 case Ended(_) => 0
  }

  function Work(calls: seq<Call>): nat { if calls == [] then 0 else Rank(calls[0]) + Work(calls[1..]) }

  function FlightWork(out: seq<Flight>): nat {
    if out == [] then 0 else (if out[0].answer.None? then 2 else 1) + FlightWork(out[1..])
  }

  lemma {:induction false} WorkUpdate(calls: seq<Call>, i: nat, c: Call)
    requires i < |calls|
    ensures Work(calls[i := c]) == Work(calls) - Rank(calls[i]) + Rank(c)
  {
    if i > 0 {
      assert calls[i := c][1..] == calls[1..][i - 1 := c];
      WorkUpdate(calls[1..], i - 1, c);
    } else {
      assert calls[i := c][1..] == calls[1..];
    }
  }

  lemma {:induction false} WorkResume(calls: seq<Call>, on: nat, granted: bool)
    ensures Work(ResumeAll(calls, on, granted)) <= Work(calls)
  {
    if calls != [] {
      assert ResumeAll(calls, on, granted)[1..] == ResumeAll(calls[1..], on, granted);
      WorkResume(calls[1..], on, granted);
    }
  }

  /** Every step but a new call uses up work. */
  lemma StepWorks(w: World, e: Event)
    requires Inv(w) && Possible(w, e) && !e.Start?
    ensures var r := Step(w, e); Work(r.calls) + FlightWork(r.out) < Work(w.calls) + FlightWork(w.out)
  {
    match e
    case Receive(id, reply) =>
      WorkUpdate(w.calls, id, Waiting(if w.inFlight.Some? then w.inFlight.value else w.started));
      WorkUpdate(w.calls, id, Ended(if reply == Answered(true) then Result else Failure));
    case Serve(_, _, _) =>
    case Arrive(k) => WorkResume(w.calls, w.out[k].id, w.out[k].answer.value.Granted?);
    case Drop(k) => WorkResume(w.calls, w.out[k].id, false);
  }

  /** While some call has not ended, something can happen; so a run that cannot go on
      without a new call has ended every call, and none can go on for ever. */
  lemma CallsEnd(w: World)
    requires Inv(w)
    ensures (forall e: Event :: !e.Start? ==> !Possible(w, e)) ==> forall i :: 0 <= i < |w.calls| ==> w.calls[i].Ended?
  {
    if i :| 0 <= i < |w.calls| && !w.calls[i].Ended? {
      if w.calls[i].Sent? {
        assert Possible(w, Receive(i, NoReply));
      } else {
        assert w.out != [];
        assert Possible(w, Drop(0));
      }
    }
  }

  lemma {:induction false} RunsAreBounded(w: World, es: seq<Event>)
    requires Inv(w) && Run(w, es).Some? && forall e: Event :: e in es ==> !e.Start?
    ensures |es| <= Work(w.calls) + FlightWork(w.out)
    decreases |es|
  {
    if es != [] {
      assert es[0] in es;
      StepKeepsInv(w, es[0]);
      StepWorks(w, es[0]);
      forall e | e in es[1..] ensures !e.Start? { assert e in es; }
      RunsAreBounded(Step(w, es[0]), es[1..]);
    }
  }

  // ---- How every call ends ----

  /** The calls started, in order, each with whether it was for a sign-in path. */
  function Starts(es: seq<Event>): seq<bool> {
    if es == [] then []
    else Starts(es[..|es| - 1]) + if es[|es| - 1].Start? then [es[|es| - 1].exempt] else []
  }

  /** The event at `k` is one that fails call `i`: an answer other than a good one, where a 401
      counts for a sign-in path and for a second send; or a refresh it awaited, refused or lost. */
  ghost predicate FailsAt(token: nat, es: seq<Event>, k: nat, i: nat)
    requires k < |es|
  {
    var before := Run(Fresh(token), es[..k]);
    before.Some? && i < |before.value.calls| && i < |Starts(es[..k])| &&
    match es[k]
    case Receive(id, reply) =>
      && id == i && reply != Answered(true)
      && (reply == Unauthorized ==> Starts(es[..k])[i] || Receive(i, Unauthorized) in es[..k])
    case Arrive(f) =>
      && f < |before.value.out| && before.value.calls[i] == Waiting(before.value.out[f].id)
      && before.value.out[f].answer == Some(Denied)
    case Drop(f) => f < |before.value.out| && before.value.calls[i] == Waiting(before.value.out[f].id)
    case _ => false
  }

  ghost predicate Failed(token: nat, es: seq<Event>, i: nat) { exists k :: 0 <= k < |es| && FailsAt(token, es, k, i) }

  ghost predicate Answers(es: seq<Event>, i: nat, reply: Reply) { Receive(i, reply) in es }

  /** What the events so far have made of call `i`. */
  ghost predicate CallTold(token: nat, es: seq<Event>, w: World, i: nat)
    requires i < |w.calls|
  {
    && i < |Starts(es)|
    && (w.calls[i] == Ended(Result) <==> Answers(es, i, Answered(true)))
    && (w.calls[i] == Ended(Failure) <==> Failed(token, es, i))
    && (w.calls[i].Sent? ==> w.calls[i].exempt == Starts(es)[i] && (w.calls[i].retried <==> Answers(es, i, Unauthorized)))
    && (w.calls[i].Waiting? ==> Answers(es, i, Unauthorized) && !Starts(es)[i])
  }

  ghost predicate Untold(token: nat, es: seq<Event>, i: nat) {
    && (forall reply :: !Answers(es, i, reply)) && !Failed(token, es, i)
  }

  ghost predicate AllTold(token: nat, es: seq<Event>, w: World) {
    && |Starts(es)| == |w.calls|
    && (forall i :: 0 <= i < |w.calls| ==> CallTold(token, es, w, i))
    && (forall i :: i >= |w.calls| ==> Untold(token, es, i))
  }

  lemma {:induction false} RunSnoc(w: World, es: seq<Event>, e: Event)
    requires Valid(w)
    ensures var r := Run(w, es);
      Run(w, es + [e]) == if r.Some? && Possible(r.value, e) then Some(Step(r.value, e)) else None
    decreases |es|
  {
    if es == [] {
      assert [] + [e] == [e];
    } else {
      assert (es + [e])[1..] == es[1..] + [e];
      if Possible(w, es[0]) { RunSnoc(Step(w, es[0]), es[1..], e); }
    }
  }

  lemma FailedSnoc(token: nat, es: seq<Event>, e: Event, i: nat)
    ensures Failed(token, es + [e], i) <==> Failed(token, es, i) || FailsAt(token, es + [e], |es|, i)
  {
    var all := es + [e];
    forall k | 0 <= k < |es| ensures FailsAt(token, all, k, i) <==> FailsAt(token, es, k, i) {
      assert all[..k] == es[..k];
    }
    if Failed(token, es, i) {
      var k :| 0 <= k < |es| && FailsAt(token, es, k, i);
      assert FailsAt(token, all, k, i);
    }
  }

  lemma TellsNext(token: nat, es: seq<Event>, e: Event, i: nat)
    requires Run(Fresh(token), es).Some? && Possible(Run(Fresh(token), es).value, e)
    requires AllTold(token, es, Run(Fresh(token), es).value)
    ensures var r := Step(Run(Fresh(token), es).value, e);
      if i < |r.calls| then CallTold(token, es + [e], r, i) else Untold(token, es + [e], i)
  {
    var w := Run(Fresh(token), es).value;
    var r := Step(w, e);
    assert (es + [e])[..|es|] == es;
    FailedSnoc(token, es, e, i);
    forall reply ensures Answers(es + [e], i, reply) <==> Answers(es, i, reply) || e == Receive(i, reply) {}
    if i < |w.calls| { assert CallTold(token, es, w, i); } else { assert Untold(token, es, i); }
  }

  lemma {:induction false} RunTold(token: nat, es: seq<Event>)
    requires Run(Fresh(token), es).Some?
    ensures AllTold(token, es, Run(Fresh(token), es).value)
    decreases |es|
  {
    if es != [] {
      var init, e := es[..|es| - 1], es[|es| - 1];
      assert es == init + [e];
      RunSnoc(Fresh(token), init, e);
      RunTold(token, init);
      var r := Run(Fresh(token), es).value;
      forall i: nat ensures if i < |r.calls| then CallTold(token, es, r, i) else Untold(token, es, i) { TellsNext(token, init, e, i); }
    }
  }

  /** On every run, a call has ended well exactly when a good answer came for it, and badly
      exactly when some event failed it; so never both. */
  lemma CallOutcome(token: nat, es: seq<Event>, i: nat)
    requires Run(Fresh(token), es).Some? && i < |Run(Fresh(token), es).value.calls|
    ensures var c := Run(Fresh(token), es).value.calls[i];
      && (c == Ended(Result) <==> Receive(i, Answered(true)) in es)
      && (c == Ended(Failure) <==> exists k :: 0 <= k < |es| && FailsAt(token, es, k, i))
  {
    RunTold(token, es);
    assert CallTold(token, es, Run(Fresh(token), es).value, i);
  }

  /** On every run, a refresh of a live session is granted exactly when the account check passes
      and its token is the current one or within its grace; a refused one ends the session. */
  lemma RefreshAnswered(token: nat, es: seq<Event>, k: nat, allowed: bool, grace: bool)
    requires Run(Fresh(token), es).Some? && Possible(Run(Fresh(token), es).value, Serve(k, allowed, grace))
    ensures var w := Run(Fresh(token), es).value;
      var r := Step(w, Serve(k, allowed, grace));
      && (r.out[k].answer.value.Granted? <==> !w.session.revoked && allowed && (!w.behind || grace))
      && (r.session.revoked <==> r.out[k].answer == Some(Denied))
      && r.session.current == w.session.current + (if w.session.revoked || w.behind then 0 else 1)
      && (r.out[k].answer.value.Granted? ==> r.out[k].answer.value.token == r.session.current == w.cookie + 1)
  {
    RunKeepsInv(Fresh(token), es);
  }
}
