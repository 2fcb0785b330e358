/** The table of requests waiting for the crypto worker. Timers and promises belong to the browser:
    a timer runs when it is due, and the first settlement of a promise is its only one. */
module PendingRequests {
  import opened Prelude

  type Id = string
  type TimerId = nat

  datatype Error = FromWorker(text: string) | Crashed | SerializationFailed | Terminated | TimedOut | PostThrew

  datatype Outcome = Resolved(result: string) | Rejected(error: Error)

  datatype Alarm = Alarm(id: Id, due: Time)

  datatype Settlement = Settlement(outcome: Outcome, at: Time)

  /** The service's `worker` and `pendingRequests`, and the browser's timers, promises and clock. */
  datatype State = State(
    worker: bool,
    pending: map<Id, TimerId>,
    timers: map<TimerId, Alarm>,
    nextTimer: TimerId,
    posted: map<Id, Time>,
    settled: map<Id, Settlement>,
    now: Time)

  const TIMEOUT: Time := 60 * SECOND

  datatype Event =
    | Post(id: Id, createWorks: bool, postWorks: bool)
    | Reply(id: Id, outcome: Outcome)
    | Crash
    | BadMessage
    | Terminate
    | Fire(timer: TimerId)
    | Tick(time: Time)

  function Settle(settled: map<Id, Settlement>, id: Id, outcome: Outcome, now: Time): map<Id, Settlement> {
    if id in settled then settled else settled[id := Settlement(outcome, now)]
  }

  /** The timers left once those of the requests in `done` are cleared. */
  function Cleared(timers: map<TimerId, Alarm>, pending: map<Id, TimerId>, done: set<Id>): map<TimerId, Alarm>
    requires done <= pending.Keys
  {
    timers - set id | id in done :: pending[id]
  }

  function RejectEach(settled: map<Id, Settlement>, done: set<Id>, error: Error, now: Time): map<Id, Settlement> {
    map id | id in settled.Keys + done :: if id in settled then settled[id] else Settlement(Rejected(error), now)
  }

  function RejectAll(s: State, error: Error): State {
    s.(pending := map[],
       timers := Cleared(s.timers, s.pending, s.pending.Keys),
       settled := RejectEach(s.settled, s.pending.Keys, error, s.now))
  }

  lemma {:induction false} ClearOneMore(timers: map<TimerId, Alarm>, pending: map<Id, TimerId>, done: set<Id>, id: Id)
    requires done <= pending.Keys && id in pending
    ensures Cleared(timers, pending, done + {id}) == Cleared(timers, pending, done) - {pending[id]}
  {
    var some, more := set x | x in done :: pending[x], set x | x in done + {id} :: pending[x];
    assert more == some + {pending[id]};
    assert timers - more == timers - some - {pending[id]};
  }

  lemma {:induction false} RejectOneMore(settled: map<Id, Settlement>, done: set<Id>, id: Id, error: Error, now: Time)
    ensures RejectEach(settled, done + {id}, error, now) ==
            Settle(RejectEach(settled, done, error, now), id, Rejected(error), now)
  {
  }

  function Posted(s: State, id: Id, postWorks: bool): State {
    s.(worker := true,
       pending := s.pending[id := s.nextTimer],
       timers := s.timers[s.nextTimer := Alarm(id, s.now + TIMEOUT)],
       nextTimer := s.nextTimer + 1,
       posted := s.posted[id := s.now],
       settled := if postWorks then s.settled else Settle(s.settled, id, Rejected(PostThrew), s.now))
  }

  function Step(s: State, e: Event): State {
    match e
    case Post(id, createWorks, postWorks) => if !s.worker && !createWorks then s else Posted(s, id, postWorks)
    case Reply(id, outcome) =>
      if id in s.pending then
        s.(timers := s.timers - {s.pending[id]}, settled := Settle(s.settled, id, outcome, s.now),
           pending := s.pending - {id})
      else s
    case Crash => RejectAll(s, Crashed).(worker := false)
    case BadMessage => RejectAll(s, SerializationFailed)
    case Terminate => RejectAll(s, Terminated).(worker := false)
    case Fire(timer) =>
      if timer !in s.timers then s
      else
        var id, t := s.timers[timer].id, s.(timers := s.timers - {timer});
        if id in s.pending then
          t.(settled := Settle(s.settled, id, Rejected(TimedOut), s.now), pending := s.pending - {id})
        else t
    case Tick(time) => s.(now := time)
  }

  /** Request ids are new, timers run once due, and the clock passes no armed timer. */
  ghost predicate Enabled(s: State, e: Event) {
    match e
    case Post(id, _, _) => id !in s.posted
    case Fire(timer) => timer in s.timers && s.timers[timer].due <= s.now
    case Tick(time) => s.now <= time && forall t :: t in s.timers ==> time <= s.timers[t].due
    case _ => true
  }

  function Run(s: State, events: seq<Event>): State
    decreases |events|
  {
    if events == [] then s else Run(Step(s, events[0]), events[1..])
  }

  ghost predicate Possible(s: State, events: seq<Event>)
    decreases |events|
  {
    events == [] || (Enabled(s, events[0]) && Possible(Step(s, events[0]), events[1..]))
  }

  // ---------------------------------------------------------------- the service

  class AuthCryptoService {
    var worker: bool
    var pendingRequests: map<Id, TimerId>
    var timers: map<TimerId, Alarm>
    var nextTimer: TimerId
    var posted: map<Id, Time>
    var settled: map<Id, Settlement>
    var now: Time

    constructor (now: Time)
      ensures Now() == State(false, map[], map[], 0, map[], map[], now)
    {
      worker, pendingRequests, timers, nextTimer := false, map[], map[], 0;
      posted, settled, this.now := map[], map[], now;
    }

    function Now(): State
      reads this
    {
      State(worker, pendingRequests, timers, nextTimer, posted, settled, now)
    }

    method PostToWorker(id: Id, createWorks: bool, postWorks: bool)
      requires id !in posted
      modifies this
      ensures Now() == Step(old(Now()), Post(id, createWorks, postWorks))
    {
      if !worker {
        if !createWorks {
          return;
        }
        worker := true;
      }
      posted := posted[id := now];
      var timeoutId := nextTimer;
      timers, nextTimer := timers[timeoutId := Alarm(id, now + TIMEOUT)], nextTimer + 1;
      pendingRequests := pendingRequests[id := timeoutId];
      if !postWorks {
        settled := Settle(settled, id, Rejected(PostThrew), now);
      }
    }

    method OnMessage(id: Id, outcome: Outcome)
      modifies this
      ensures Now() == Step(old(Now()), Reply(id, outcome))
    {
      if id in pendingRequests {
        timers := timers - {pendingRequests[id]};
        settled := Settle(settled, id, outcome, now);
        pendingRequests := pendingRequests - {id};
      }
    }

    /** Requests are rejected one after the other, in any order. */
    method RejectAllPending(error: Error)
      modifies this
      ensures Now() == RejectAll(old(Now()), error)
    {
      var todo := pendingRequests.Keys;
      ghost var armed, before := timers, settled;
      ghost var done: set<Id> := {};
      while todo != {}
        invariant todo <= pendingRequests.Keys && done == pendingRequests.Keys - todo
        invariant pendingRequests == old(pendingRequests) && unchanged(`worker, `nextTimer, `posted, `now)
        invariant timers == Cleared(armed, pendingRequests, done)
        invariant settled == RejectEach(before, done, error, now)
        decreases todo
      {
        var id :| id in todo;
        ClearOneMore(armed, pendingRequests, done, id);
        RejectOneMore(before, done, id, error, now);
        timers := timers - {pendingRequests[id]};
        settled := Settle(settled, id, Rejected(error), now);
        todo, done := todo - {id}, done + {id};
      }
      assert done == pendingRequests.Keys;
      pendingRequests := map[];
    }

    method TerminateWorker()
      modifies this
      ensures Now() == Step(old(Now()), Terminate)
    {
      worker := false;
      RejectAllPending(Terminated);
    }

    method OnError()
      modifies this
      ensures Now() == Step(old(Now()), Crash)
    {
      RejectAllPending(Crashed);
      TerminateWorker();
    }

    method OnMessageError()
      modifies this
      ensures Now() == Step(old(Now()), BadMessage)
    {
      RejectAllPending(SerializationFailed);
    }

    /** What the browser runs when a timer is due. */
    method OnTimeout(timer: TimerId)
      requires timer in timers
      modifies this
      ensures Now() == Step(old(Now()), Fire(timer))
    {
      var id := timers[timer].id;
      timers := timers - {timer};
      if id in pendingRequests {
        settled := Settle(settled, id, Rejected(TimedOut), now);
        pendingRequests := pendingRequests - {id};
      }
    }
  }

  // ---------------------------------------------------------------- the invariant

  /** An entry of the table has its own armed timer, one minute after its post, and the clock has not passed it. */
  ghost predicate Armed(s: State, id: Id)
    requires id in s.pending
  {
    && id in s.posted && s.pending[id] in s.timers
    && s.timers[s.pending[id]] == Alarm(id, s.posted[id] + TIMEOUT)
    && s.now <= s.posted[id] + TIMEOUT
  }

  ghost predicate InTime(s: State, id: Id)
    requires id in s.settled
  {
    id in s.posted && s.posted[id] <= s.settled[id].at <= s.posted[id] + TIMEOUT
  }

  ghost predicate Inv(s: State) {
    && (forall id :: id in s.posted ==> s.posted[id] <= s.now && (id in s.settled || id in s.pending))
    && (forall id :: id in s.pending ==> Armed(s, id))
    && (forall id :: id in s.settled ==> InTime(s, id))
    && (forall id :: id in s.pending && id in s.settled ==> s.settled[id].outcome == Rejected(PostThrew))
    && (forall t :: t in s.timers ==> t < s.nextTimer && s.timers[t].id in s.pending && s.pending[s.timers[t].id] == t)
  }

  lemma {:induction false} PostKeepsInv(s: State, id: Id, postWorks: bool)
    requires Inv(s) && id !in s.posted
    ensures Inv(Posted(s, id, postWorks))
  {
    var v := Posted(s, id, postWorks);
    forall x | x in v.pending ensures Armed(v, x) {
      if x != id {
        assert Armed(s, x);
      }
    }
    forall x | x in v.settled ensures InTime(v, x) {
      if x != id {
        assert InTime(s, x);
      }
    }
  }

  /** Settling an entry of the table and dropping it with its timer. */
  lemma {:induction false} DropKeepsInv(s: State, id: Id, outcome: Outcome)
    requires Inv(s) && id in s.pending
    ensures Inv(s.(timers := s.timers - {s.pending[id]}, settled := Settle(s.settled, id, outcome, s.now),
                   pending := s.pending - {id}))
  {
    var v := s.(timers := s.timers - {s.pending[id]}, settled := Settle(s.settled, id, outcome, s.now),
                pending := s.pending - {id});
    assert Armed(s, id);
    forall x | x in v.pending ensures Armed(v, x) {
      assert Armed(s, x);
    }
    forall x | x in v.settled ensures InTime(v, x) {
      if x in s.settled {
        assert InTime(s, x);
      }
    }
  }

  lemma {:induction false} RejectAllKeepsInv(s: State, error: Error, worker: bool)
    requires Inv(s)
    ensures Inv(RejectAll(s, error).(worker := worker))
    ensures RejectAll(s, error).timers == map[]
  {
    var v := RejectAll(s, error);
    forall t | t in s.timers ensures t !in v.timers {
      assert s.timers[t].id in s.pending.Keys && s.pending[s.timers[t].id] == t;
    }
    forall x | x in v.settled ensures InTime(v, x) {
      if x in s.settled {
        assert InTime(s, x);
      } else {
        assert Armed(s, x);
      }
    }
  }

  lemma {:induction false} TickKeepsInv(s: State, time: Time)
    requires Inv(s) && Enabled(s, Tick(time))
    ensures Inv(s.(now := time))
  {
    var v := s.(now := time);
    forall x | x in v.pending ensures Armed(v, x) {
      assert Armed(s, x);
    }
    forall x | x in v.settled ensures InTime(v, x) {
      assert InTime(s, x);
    }
  }

  lemma {:induction false} StepKeepsInv(s: State, e: Event)
    requires Inv(s) && Enabled(s, e)
    ensures Inv(Step(s, e))
  {
    match e
    case Post(id, createWorks, postWorks) => PostKeepsInv(s, id, postWorks);
    case Reply(id, outcome) =>
      if id in s.pending {
        DropKeepsInv(s, id, outcome);
      }
    case Crash => RejectAllKeepsInv(s, Crashed, false);
    case BadMessage => RejectAllKeepsInv(s, SerializationFailed, s.worker);
    case Terminate => RejectAllKeepsInv(s, Terminated, false);
    case Fire(timer) => DropKeepsInv(s, s.timers[timer].id, Rejected(TimedOut));
    case Tick(time) => TickKeepsInv(s, time);
  }

  lemma {:induction false} RunKeepsInv(s: State, events: seq<Event>)
    requires Inv(s) && Possible(s, events)
    ensures Inv(Run(s, events))
    decreases |events|
  {
    if events != [] {
      StepKeepsInv(s, events[0]);
      RunKeepsInv(Step(s, events[0]), events[1..]);
    }
  }

  function Start(now: Time): State { State(false, map[], map[], 0, map[], map[], now) }

  // ---------------------------------------------------------------- main results

  /** In every run a request is either waiting with its own timer armed or settled, and it settles
      within a minute of its post: once the clock is past that minute it has. */
  lemma {:induction false} EveryRequestSettlesWithinAMinute(now: Time, events: seq<Event>, id: Id)
    requires Possible(Start(now), events) && id in Run(Start(now), events).posted
    ensures var s := Run(Start(now), events);
            && (id !in s.settled ==>
                  id in s.pending && s.pending[id] in s.timers
                  && s.timers[s.pending[id]] == Alarm(id, s.posted[id] + TIMEOUT) && s.now <= s.posted[id] + TIMEOUT)
            && (id in s.settled ==> s.posted[id] <= s.settled[id].at <= s.posted[id] + TIMEOUT)
  {
    RunKeepsInv(Start(now), events);
    var s := Run(Start(now), events);
    if id in s.settled {
      assert InTime(s, id);
    } else {
      assert Armed(s, id);
    }
  }

  /** A settled result never changes, whatever replies, timers, crashes or terminations follow. */
  lemma {:induction false} SettledNeverChanges(s: State, events: seq<Event>, id: Id)
    requires id in s.settled
    ensures id in Run(s, events).settled && Run(s, events).settled[id] == s.settled[id]
    decreases |events|
  {
    if events != [] {
      SettledNeverChanges(Step(s, events[0]), events[1..], id);
    }
  }

  /** A reply, also a late one or one with an unknown id, settles nothing but its own request, and
      that one exactly when it is still waiting. */
  lemma {:induction false} ReplySettlesOnlyItsOwn(s: State, id: Id, outcome: Outcome)
    requires Inv(s)
    ensures var v := Step(s, Reply(id, outcome));
            && (forall x :: x != id ==> (x in v.pending <==> x in s.pending) && (x in v.settled <==> x in s.settled))
            && (forall x :: x in s.settled ==> v.settled[x] == s.settled[x])
            && (forall x :: x in v.pending ==> v.pending[x] == s.pending[x] && v.pending[x] in v.timers)
            && (id !in s.settled ==> (id in v.settled <==> id in s.posted))
            && (id in s.posted && id !in s.settled ==> v.settled[id] == Settlement(outcome, s.now))
  {
    if id in s.pending {
      assert Armed(s, id);
      forall x | x in s.pending && x != id ensures s.pending[x] != s.pending[id] && s.pending[x] in s.timers {
        assert Armed(s, x);
      }
    } else {
      forall x | x in s.pending ensures s.pending[x] in s.timers {
        assert Armed(s, x);
      }
    }
  }

  /** A crash, an unreadable message or a termination leaves nothing waiting and no timer armed. */
  lemma {:induction false} NothingWaitsAfterwards(s: State, e: Event)
    requires Inv(s) && (e.Crash? || e.BadMessage? || e.Terminate?)
    ensures Step(s, e).pending == map[] && Step(s, e).timers == map[]
    ensures Step(s, e).settled.Keys == s.posted.Keys
  {
    RejectAllKeepsInv(s, Crashed, false);
    RejectAllKeepsInv(s, SerializationFailed, false);
    RejectAllKeepsInv(s, Terminated, false);
    StepKeepsInv(s, e);
    var v := Step(s, e);
    forall id | id in v.settled ensures id in s.posted {
      assert InTime(v, id);
    }
  }

  /** A settled request is left in the table exactly when its message could not be posted: the
      promise is rejected but the entry and its timer stay until something clears them. */
  lemma {:induction false} OnlyFailedPostsLinger(s: State, id: Id, createWorks: bool, postWorks: bool)
    requires Inv(s) && id !in s.posted && (s.worker || createWorks)
    ensures var v := Step(s, Post(id, createWorks, postWorks));
            && id in v.pending
            && (id in v.settled <==> !postWorks)
            && (forall x :: x in v.pending && x in v.settled ==> v.settled[x].outcome == Rejected(PostThrew))
  {
    StepKeepsInv(s, Post(id, createWorks, postWorks));
    if id in s.settled {
      assert InTime(s, id);
    }
  }

  // ---------------------------------------------------------------- what a request is settled with

  /** What an event tells the request `id`, if it reaches it: its own reply, its own timer, its own failing
      post, or something that happens to the worker as a whole. */
  function Told(s: State, e: Event, id: Id): Option<Outcome> {
    match e
    case Post(x, _, postWorks) => if x == id && !postWorks then Some(Rejected(PostThrew)) else None
    case Reply(x, outcome) => if x == id then Some(outcome) else None
    case Crash => Some(Rejected(Crashed))
    case BadMessage => Some(Rejected(SerializationFailed))
    case Terminate => Some(Rejected(Terminated))
    case Fire(timer) => if timer in s.timers && s.timers[timer].id == id then Some(Rejected(TimedOut)) else None
    case Tick(_) => None
  }

  /** The event reaches the request: it posts it, or the request has been posted before. */
  predicate Reaches(s: State, e: Event, id: Id) {
    if e.Post? then e.id == id && (s.worker || e.createWorks) else id in s.posted
  }

  /** The first thing that reaches the request and tells it something. */
  function FirstTold(s: State, events: seq<Event>, id: Id): Option<Settlement>
    decreases |events|
  {
    if events == [] then None
    else if Reaches(s, events[0], id) && Told(s, events[0], id).Some?
    then Some(Settlement(Told(s, events[0], id).value, s.now))
    else FirstTold(Step(s, events[0]), events[1..], id)
  }

  /** An unsettled request is settled by an event exactly when the event reaches it and tells it something, and
      then with that, at that time. */
  lemma {:induction false} SettledWithWhatItIsTold(s: State, e: Event, id: Id)
    requires Inv(s) && Enabled(s, e) && id !in s.settled
    ensures var v := Step(s, e);
            && (id in v.settled <==> Reaches(s, e, id) && Told(s, e, id).Some?)
            && (id in v.settled ==> v.settled[id] == Settlement(Told(s, e, id).value, s.now))
  {
    if id in s.pending {
      assert Armed(s, id);
    }
  }

  /** Over every run a request is settled with the first thing it is told, and not before. */
  lemma {:induction false} SettledWithTheFirst(s: State, events: seq<Event>, id: Id)
    requires Inv(s) && Possible(s, events) && id !in s.settled
    ensures var v := Run(s, events);
            && (id in v.settled <==> FirstTold(s, events, id).Some?)
            && (id in v.settled ==> Some(v.settled[id]) == FirstTold(s, events, id))
    decreases |events|
  {
    if events != [] {
      SettledWithWhatItIsTold(s, events[0], id);
      StepKeepsInv(s, events[0]);
      if id in Step(s, events[0]).settled {
        SettledNeverChanges(Step(s, events[0]), events[1..], id);
      } else {
        SettledWithTheFirst(Step(s, events[0]), events[1..], id);
      }
    }
  }

  lemma {:induction false} FirstToldSplits(s: State, before: seq<Event>, after: seq<Event>, id: Id)
    ensures FirstTold(s, before + after, id)
            == if FirstTold(s, before, id).Some? then FirstTold(s, before, id)
               else FirstTold(Run(s, before), after, id)
    decreases |before|
  {
    if before == [] {
      assert before + after == after;
    } else {
      assert (before + after)[1..] == before[1..] + after;
      FirstToldSplits(Step(s, before[0]), before[1..], after, id);
    }
  }

  /** What the first thing told is comes from one event of the run. */
  lemma {:induction false} FirstToldIsAnEvent(s: State, events: seq<Event>, id: Id) returns (k: nat)
    requires FirstTold(s, events, id).Some?
    ensures k < |events| && FirstTold(s, events[..k], id).None?
    ensures var reached := Run(s, events[..k]);
            && Reaches(reached, events[k], id)
            && Told(reached, events[k], id) == Some(FirstTold(s, events, id).value.outcome)
    decreases |events|
  {
    if Reaches(s, events[0], id) && Told(s, events[0], id).Some? {
      k := 0;
    } else {
      var rest := FirstToldIsAnEvent(Step(s, events[0]), events[1..], id);
      k := rest + 1;
      assert events[..k][1..] == events[1..][..rest];
    }
  }

  /** The request is waiting for its answer after the first `k` events, and its own answer `r` comes then. */
  ghost predicate AnsweredAt(s: State, events: seq<Event>, id: Id, r: string, k: nat)
    requires k < |events|
  {
    && id in Run(s, events[..k]).posted && id !in Run(s, events[..k]).settled
    && events[k] == Reply(id, Resolved(r))
  }

  /** A request is resolved with a result exactly when a reply with that result came while it was waiting. No
      timeout, crash, unreadable message, termination or failing post resolves one. */
  lemma {:induction false} ResolvedExactlyByItsReply(now: Time, events: seq<Event>, id: Id, r: string)
    requires Possible(Start(now), events)
    ensures id in Run(Start(now), events).settled && Run(Start(now), events).settled[id].outcome == Resolved(r)
            <==> exists k: nat :: k < |events| && AnsweredAt(Start(now), events, id, r, k)
  {
    var s := Start(now);
    SettledWithTheFirst(s, events, id);
    if FirstTold(s, events, id).Some? && FirstTold(s, events, id).value.outcome == Resolved(r) {
      var k := FirstToldIsAnEvent(s, events, id);
      PossiblePrefix(s, events, k);
      SettledWithTheFirst(s, events[..k], id);
      assert AnsweredAt(s, events, id, r, k);
    }
    forall k: nat | k < |events| && AnsweredAt(s, events, id, r, k)
      ensures FirstTold(s, events, id).Some? && FirstTold(s, events, id).value.outcome == Resolved(r)
    {
      PossiblePrefix(s, events, k);
      SettledWithTheFirst(s, events[..k], id);
      assert events == events[..k] + events[k..] && events[k..][0] == events[k];
      FirstToldSplits(s, events[..k], events[k..], id);
    }
  }

  lemma {:induction false} PossiblePrefix(s: State, events: seq<Event>, k: nat)
    requires Possible(s, events) && k <= |events|
    ensures Possible(s, events[..k])
    decreases k
  {
    if k != 0 {
      assert events[..k][1..] == events[1..][..k - 1];
      PossiblePrefix(Step(s, events[0]), events[1..], k - 1);
    }
  }

  /** The due timer of a request that waits rejects it as timed out, sixty seconds after its post, and takes it
      from the table. */
  lemma {:induction false} DueTimerTimesOut(s: State, id: Id)
    requires Inv(s) && id in s.pending && id !in s.settled && s.now == s.posted[id] + 600_000_000
    ensures var v := Step(s, Fire(s.pending[id]));
            && Enabled(s, Fire(s.pending[id]))
            && v.settled == s.settled[id := Settlement(Rejected(TimedOut), s.now)]
            && v.pending == s.pending - {id} && s.pending[id] !in v.timers && v.worker == s.worker
  {
    assert Armed(s, id);
  }

  /** A crash or a termination drops the worker, an unreadable message keeps it; all reject what waits by name. */
  lemma {:induction false} RejectedByName(s: State, id: Id)
    requires Inv(s) && id in s.posted && id !in s.settled
    ensures Step(s, Crash).settled[id] == Settlement(Rejected(Crashed), s.now) && !Step(s, Crash).worker
    ensures Step(s, BadMessage).settled[id] == Settlement(Rejected(SerializationFailed), s.now)
    ensures Step(s, BadMessage).worker == s.worker
    ensures Step(s, Terminate).settled[id] == Settlement(Rejected(Terminated), s.now) && !Step(s, Terminate).worker
  {
  }

  /** A post starts a worker when there is none and arms a timer for sixty seconds later; without a worker and
      without one to be had nothing is posted. */
  lemma {:induction false} PostArmsATimer(s: State, id: Id, createWorks: bool, postWorks: bool)
    requires Inv(s) && id !in s.posted
    ensures var v := Step(s, Post(id, createWorks, postWorks));
            if s.worker || createWorks then
              && v.worker && id in v.pending && id in v.posted && v.posted[id] == s.now
              && v.pending[id] in v.timers && v.pending[id] !in s.timers
              && v.timers[v.pending[id]] == Alarm(id, s.now + 600_000_000)
              && (id in v.settled <==> !postWorks)
              && (!postWorks ==> v.settled[id] == Settlement(Rejected(PostThrew), s.now))
            else v == s
  {
  }
}
