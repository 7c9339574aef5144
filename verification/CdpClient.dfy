/** The request/response protocol of the CDP client as steps (connector/browser/cdp/client.go). */
module CdpClient {

  /** A response frame is known by its arrival number; the sweep sends connection errors. */
  datatype Msg = Reply(serial: nat) | ConnError

  datatype Outcome = ClosedEarly | MarshalError | WriteError | Got(msg: Msg)

  /** Where one call of sendWithSession stands. */
  datatype Sender =
    | Idle
    | Checked
    | HasId(id: int)
    | Stored(id: int)
    | Waiting(id: int)
    | Leaving(id: int, outcome: Outcome)
    | Gone(id: int, outcome: Outcome)
  {
    /** The id of the call, or 0 while it has none. */
    function Id(): int {
      match this
      case Idle => 0
      case Checked => 0
      case HasId(i) => i
      case Stored(i) => i
      case Waiting(i) => i
      case Leaving(i, _) => i
      case Gone(i, _) => i
    }

    /** The call has stored its channel and has not received yet. */
    predicate Awaits() {
      Stored? || Waiting?
    }
  }

  /** Where the read loop stands. `due` are the ids pending when the sweep began. */
  datatype Loop =
    | Reading
    | Delivering(id: int, serial: nat)
    | Sweeping(due: set<int>, visited: set<int>, holding: int)
    | Stopped

  /** `chans` keeps the one-slot channel of every id ever stored; `arrived` lists the ids of all
      response frames so far; `early` are the ids stored before the sweep began. */
  datatype State = State(
    nextId: nat,
    pending: set<int>,
    chans: map<int, seq<Msg>>,
    senders: map<nat, Sender>,
    loop: Loop,
    done: bool,
    arrived: seq<int>,
    early: set<int>)
  {
    function At(c: nat): Sender {
      if c in senders then senders[c] else Idle
    }

    function Move(c: nat, to: Sender): State {
      this.(senders := senders[c := to])
    }

    predicate BeforeSweep() {
      loop.Reading? || loop.Delivering?
    }
  }

  const Init := State(0, {}, map[], map[], Reading, false, [], {})

  datatype Step =
    | CheckDone(c: nat)
    | Allocate(c: nat)
    | MarshalFails(c: nat)
    | Store(c: nat)
    | WriteOk(c: nat)
    | WriteFails(c: nat)
    | Receive(c: nat)
    | Delete(c: nat)
    | Arrive(frameId: int)
    | Deliver
    | ReadFails
    | Pick(key: int)
    | Put
    | SweepEnd
    | CloseDone

  predicate Enabled(s: State, t: Step) {
    match t
    case CheckDone(c) => s.At(c).Idle?
    case Allocate(c) => s.At(c).Checked?
    case MarshalFails(c) => s.At(c).HasId?
    case Store(c) => s.At(c).HasId?
    case WriteOk(c) => s.At(c).Stored?
    case WriteFails(c) => s.At(c).Stored?
    case Receive(c) => s.At(c).Waiting? && s.At(c).id in s.chans && s.chans[s.At(c).id] != []
    case Delete(c) => s.At(c).Leaving?
    case Arrive(id) => s.loop.Reading? && id != 0
    case Deliver => s.loop.Delivering? && s.loop.id in s.chans && s.chans[s.loop.id] == []
    case ReadFails => s.loop.Reading?
    case Pick(id) => s.loop.Sweeping? && s.loop.holding == 0 && id in s.pending && id !in s.loop.visited
    case Put => s.loop.Sweeping? && s.loop.holding != 0 && s.loop.holding in s.chans
    case SweepEnd => s.loop.Sweeping? && s.loop.holding == 0 && s.loop.due * s.pending <= s.loop.visited
    case CloseDone => true
  }

  function Apply(s: State, t: Step): State
    requires Enabled(s, t)
  {
    match t
    case CheckDone(c) => s.Move(c, if s.done then Gone(0, ClosedEarly) else Checked)
    case Allocate(c) => s.Move(c, HasId(s.nextId + 1)).(nextId := s.nextId + 1)
    case MarshalFails(c) => s.Move(c, Gone(s.At(c).id, MarshalError))
    case Store(c) =>
      var id := s.At(c).id;
      s.Move(c, Stored(id)).(pending := s.pending + {id}, chans := s.chans[id := []],
                             early := if s.BeforeSweep() then s.early + {id} else s.early)
    case WriteOk(c) => s.Move(c, Waiting(s.At(c).id))
    case WriteFails(c) => s.Move(c, Leaving(s.At(c).id, WriteError))
    case Receive(c) =>
      var id := s.At(c).id;
      s.Move(c, Leaving(id, Got(s.chans[id][0]))).(chans := s.chans[id := s.chans[id][1..]])
    case Delete(c) =>
      var id := s.At(c).id;
      s.Move(c, Gone(id, s.At(c).outcome)).(pending := s.pending - {id})
    case Arrive(id) =>
      var s' := s.(arrived := s.arrived + [id]);
      if id in s.pending then s'.(pending := s.pending - {id}, loop := Delivering(id, |s.arrived|)) else s'
    case Deliver => s.(chans := s.chans[s.loop.id := [Reply(s.loop.serial)]], loop := Reading)
    case ReadFails => s.(loop := Sweeping(s.pending, {}, 0))
    case Pick(id) => s.(loop := s.loop.(visited := s.loop.visited + {id}, holding := id))
    case Put =>
      var id := s.loop.holding;
      s.(chans := if s.chans[id] == [] then s.chans[id := [ConnError]] else s.chans, loop := s.loop.(holding := 0))
    case SweepEnd => s.(loop := Stopped, done := true)
    case CloseDone => s.(done := true)
  }

  // ---- Runs -------------------------------------------------------------

  /** `ss` is the list of states of a run of the steps `ts` from the initial state. */
  ghost predicate IsRun(ss: seq<State>, ts: seq<Step>) {
    && |ss| == |ts| + 1
    && ss[0] == Init
    && forall i :: 0 <= i < |ts| ==> Enabled(ss[i], ts[i]) && ss[i + 1] == Apply(ss[i], ts[i])
  }

  lemma RunStep(ss: seq<State>, ts: seq<Step>, n: nat)
    requires IsRun(ss, ts) && 0 < n < |ss|
    ensures Enabled(ss[n - 1], ts[n - 1]) && ss[n] == Apply(ss[n - 1], ts[n - 1])
  {
    hide Enabled;
    hide Apply;
    var m := n - 1;
    assert Enabled(ss[m], ts[m]) && ss[m + 1] == Apply(ss[m], ts[m]);
  }

  // ---- The invariant ----------------------------------------------------

  /** Ids are positive, not yet passed by the counter, and belong to one call each. */
  ghost predicate IdsUnique(s: State) {
    && (forall c: nat :: 0 <= s.At(c).Id() <= s.nextId)
    && (forall c: nat, d: nat :: c != d && s.At(c).Id() == s.At(d).Id() ==> s.At(c).Id() == 0)
    && (forall c: nat :: s.At(c).HasId? || s.At(c).Awaits() || s.At(c).Leaving? ==> s.At(c).Id() > 0)
  }

  /** Channels exist for stored ids only, have one slot, and a call that awaits has one. */
  ghost predicate ChannelsFit(s: State) {
    && s.pending <= s.chans.Keys
    && (forall id :: id in s.chans ==> 0 < id <= s.nextId && |s.chans[id]| <= 1)
    && (forall c: nat :: s.At(c).Awaits() ==> s.At(c).Id() in s.chans)
    && (forall c: nat :: s.At(c).HasId? ==> s.At(c).Id() !in s.chans)
    && (s.loop.Sweeping? && s.loop.holding != 0 ==> s.loop.holding in s.chans)
  }

  /** Before the sweep a pending id has an empty channel, and so does the id being delivered. */
  ghost predicate PendingEmpty(s: State) {
    && (s.BeforeSweep() ==> forall id :: id in s.pending ==> id in s.chans && s.chans[id] == [])
    && (s.loop.Delivering? ==>
          && s.loop.id in s.chans && s.chans[s.loop.id] == [] && s.loop.id !in s.pending
          && s.loop.serial < |s.arrived| && s.arrived[s.loop.serial] == s.loop.id)
  }

  /** `m` may reach the call with this id: a response that bears it, or the connection error. */
  ghost predicate Meant(s: State, id: int, m: Msg) {
    match m
    case Reply(serial) => serial < |s.arrived| && s.arrived[serial] == id
    case ConnError => !s.BeforeSweep()
  }

  ghost predicate ChannelMessages(s: State) {
    forall id :: id in s.chans && s.chans[id] != [] ==> Meant(s, id, s.chans[id][0])
  }

  /** What the call received, if it has. */
  predicate Received(x: Sender, m: Msg) {
    (x.Leaving? || x.Gone?) && x.outcome == Got(m)
  }

  ghost predicate OwnMessages(s: State) {
    && 0 !in s.arrived
    && ChannelMessages(s)
    && (forall c: nat, m: Msg :: Received(s.At(c), m) ==> Meant(s, s.At(c).id, m))
  }

  /** Somebody still has to reach the channel of `id`, or something is in it already. */
  ghost predicate WillWake(s: State, id: int)
    requires id in s.chans
  {
    || s.chans[id] != []
    || (s.BeforeSweep() && id in s.pending)
    || (s.loop.Delivering? && s.loop.id == id)
    || (s.loop.Sweeping? && (s.loop.holding == id || (id in s.loop.due * s.pending && id !in s.loop.visited)))
  }

  ghost predicate EarlyWake(s: State) {
    && (s.BeforeSweep() ==> forall c: nat :: s.At(c).Awaits() ==> s.At(c).Id() in s.early)
    && (forall c: nat :: s.At(c).Awaits() && s.At(c).Id() in s.early ==>
          s.At(c).Id() in s.chans && WillWake(s, s.At(c).Id()))
    && (forall id :: id in s.early ==> id in s.chans)
  }

  ghost predicate Inv(s: State) {
    IdsUnique(s) && ChannelsFit(s) && PendingEmpty(s) && OwnMessages(s) && EarlyWake(s)
  }

  // ---- Every step keeps it ----------------------------------------------

  /** Only the acting caller moves. */
  predicate Acts(t: Step, c: nat) {
    match t
    case CheckDone(d) => c == d
    case Allocate(d) => c == d
    case MarshalFails(d) => c == d
    case Store(d) => c == d
    case WriteOk(d) => c == d
    case WriteFails(d) => c == d
    case Receive(d) => c == d
    case Delete(d) => c == d
    case _ => false
  }

  lemma OthersStay(s: State, t: Step)
    requires Enabled(s, t)
    ensures forall c: nat {:trigger Apply(s, t).At(c)} :: !Acts(t, c) ==> Apply(s, t).At(c) == s.At(c)
  {
  }

  /** A call that has an id beyond its allocation had it before. */
  lemma IdAfter(s: State, t: Step, c: nat)
    requires Enabled(s, t)
    ensures var x, x' := s.At(c), Apply(s, t).At(c);
            && x'.Id() == (if t == Allocate(c) then s.nextId + 1 else x.Id())
            && (x'.HasId? || x'.Awaits() || x'.Leaving? ==> t == Allocate(c) || x.HasId? || x.Awaits() || x.Leaving?)
    ensures Apply(s, t).nextId == s.nextId + if t.Allocate? then 1 else 0
  {
    OthersStay(s, t);
  }

  lemma StepKeepsIds(s: State, t: Step)
    requires Inv(s) && Enabled(s, t)
    ensures IdsUnique(Apply(s, t))
  {
    hide ChannelsFit;
    hide PendingEmpty;
    hide OwnMessages;
    hide EarlyWake;
    hide Enabled;
    hide Apply;
    var s' := Apply(s, t);
    forall c: nat
      ensures s'.At(c).Id() == (if t == Allocate(c) then s.nextId + 1 else s.At(c).Id())
      ensures 0 <= s'.At(c).Id() <= s'.nextId
      ensures s'.At(c).HasId? || s'.At(c).Awaits() || s'.At(c).Leaving? ==> s'.At(c).Id() > 0
    {
      IdAfter(s, t, c);
      assert 0 <= s.At(c).Id() <= s.nextId;
    }
  }

  lemma StepKeepsChannels(s: State, t: Step)
    requires Inv(s) && Enabled(s, t)
    ensures ChannelsFit(Apply(s, t))
  {
    hide PendingEmpty;
    hide OwnMessages;
    hide EarlyWake;
    OthersStay(s, t);
  }

  lemma StepKeepsEmpty(s: State, t: Step)
    requires Inv(s) && Enabled(s, t)
    ensures PendingEmpty(Apply(s, t))
  {
    hide OwnMessages;
    hide EarlyWake;
    OthersStay(s, t);
  }

  /** What was meant for an id stays meant for it. */
  lemma StillMeant(s: State, t: Step, id: int, m: Msg)
    requires Enabled(s, t) && Meant(s, id, m)
    ensures Meant(Apply(s, t), id, m)
  {
  }

  lemma StepKeepsChannelMessages(s: State, t: Step)
    requires Inv(s) && Enabled(s, t)
    ensures ChannelMessages(Apply(s, t)) && 0 !in Apply(s, t).arrived
  {
    var s' := Apply(s, t);
    forall id | id in s'.chans && s'.chans[id] != [] ensures Meant(s', id, s'.chans[id][0]) {
      if id in s.chans && s.chans[id] != [] {
        StillMeant(s, t, id, s.chans[id][0]);
      }
    }
  }

  lemma StepKeepsMessages(s: State, t: Step)
    requires Inv(s) && Enabled(s, t)
    ensures OwnMessages(Apply(s, t))
  {
    var s' := Apply(s, t);
    StepKeepsChannelMessages(s, t);
    OthersStay(s, t);
    forall c: nat, m: Msg | Received(s'.At(c), m) ensures Meant(s', s'.At(c).id, m) {
      if Received(s.At(c), m) {
        StillMeant(s, t, s.At(c).id, m);
      } else {
        StillMeant(s, t, s.At(c).id, s.chans[s.At(c).id][0]);
      }
    }
  }

  /** Whoever awaited before the step and still does has somebody left to wake it. */
  lemma WakeKept(s: State, t: Step, c: nat)
    requires Inv(s) && Enabled(s, t) && s.At(c).Awaits() && Apply(s, t).At(c).Awaits() && s.At(c).Id() in s.early
    ensures s.At(c).Id() in Apply(s, t).chans && WillWake(Apply(s, t), s.At(c).Id())
  {
    hide OwnMessages;
    hide PendingEmpty;
    if (t.Receive? || t.Delete? || t.Store?) && t.c != c {
      assert s.At(t.c).Id() != s.At(c).Id() by {
        assert s.At(t.c).Id() > 0;
      }
    }
  }

  /** A call that starts to await has just registered. */
  lemma WakeStarts(s: State, t: Step, c: nat)
    requires Inv(s) && Enabled(s, t) && !s.At(c).Awaits() && Apply(s, t).At(c).Awaits()
    ensures var s' := Apply(s, t);
            && t == Store(c) && s'.At(c).Id() == s.At(c).Id() && s'.At(c).Id() in s'.chans
            && (s.BeforeSweep() ==> s'.At(c).Id() in s'.early && WillWake(s', s'.At(c).Id()))
            && (!s.BeforeSweep() ==> s'.At(c).Id() !in s'.early)
  {
    hide OwnMessages;
    hide PendingEmpty;
    hide IdsUnique;
  }

  lemma EarlyAfter(s: State, t: Step)
    requires Enabled(s, t)
    ensures var s' := Apply(s, t);
            && (s'.BeforeSweep() ==> s.BeforeSweep())
            && s.early <= s'.early && s.chans.Keys <= s'.chans.Keys
            && forall id :: id in s'.early ==> id in s.early || (t.Store? && id == s.At(t.c).Id() && id in s'.chans)
  {
  }

  lemma StepKeepsWake(s: State, t: Step)
    requires Inv(s) && Enabled(s, t)
    ensures EarlyWake(Apply(s, t))
  {
    hide OwnMessages;
    hide PendingEmpty;
    hide IdsUnique;
    hide ChannelsFit;
    hide Enabled;
    hide Apply;
    hide WillWake;
    var s' := Apply(s, t);
    EarlyAfter(s, t);
    forall c: nat | s'.At(c).Awaits()
      ensures s'.BeforeSweep() ==> s'.At(c).Id() in s'.early
      ensures s'.At(c).Id() in s'.early ==> s'.At(c).Id() in s'.chans && WillWake(s', s'.At(c).Id())
    {
      IdAfter(s, t, c);
      if s.At(c).Awaits() {
        OldCallStaysEarly(s, t, c);
        if s.At(c).Id() in s.early {
          WakeKept(s, t, c);
        }
      } else {
        WakeStarts(s, t, c);
      }
    }
  }

  /** A call that awaits becomes early only by its own registration. */
  lemma OldCallStaysEarly(s: State, t: Step, c: nat)
    requires Inv(s) && Enabled(s, t) && s.At(c).Awaits() && Apply(s, t).At(c).Awaits()
    ensures Apply(s, t).At(c).Id() == s.At(c).Id()
    ensures s.At(c).Id() in Apply(s, t).early <==> s.At(c).Id() in s.early
  {
    hide OwnMessages;
    hide PendingEmpty;
    hide EarlyWake;
    if t.Store? && t.c != c {
      assert s.At(t.c).Id() != s.At(c).Id() by {
        assert s.At(t.c).Id() > 0;
      }
    }
  }

  lemma StepKeepsInv(s: State, t: Step)
    requires Inv(s) && Enabled(s, t)
    ensures Inv(Apply(s, t))
  {
    StepKeepsIds(s, t);
    StepKeepsChannels(s, t);
    StepKeepsEmpty(s, t);
    StepKeepsMessages(s, t);
    StepKeepsWake(s, t);
  }

  lemma {:induction false} RunKeepsInv(ss: seq<State>, ts: seq<Step>, n: nat)
    requires IsRun(ss, ts) && n < |ss|
    ensures Inv(ss[n])
  {
    if n > 0 {
      RunKeepsInv(ss, ts, n - 1);
      StepKeepsInv(ss[n - 1], ts[n - 1]);
    }
  }

  // ---- What every run keeps ---------------------------------------------

  /** How far a call has come; no step moves it back. */
  function Rank(x: Sender): nat {
    match x
    case Idle => 0
    case Checked => 1
    case HasId(_) => 2
    case Stored(_) => 3
    case Waiting(_) => 4
    case Leaving(_, _) => 5
    case Gone(_, _) => 6
  }

  lemma StepMovesForward(s: State, t: Step, c: nat)
    requires Inv(s) && Enabled(s, t)
    ensures Rank(s.At(c)) <= Rank(Apply(s, t).At(c))
    ensures s.At(c).Id() != 0 ==> Apply(s, t).At(c).Id() == s.At(c).Id()
  {
    OthersStay(s, t);
    if Acts(t, c) {
    }
  }

  lemma {:induction false} CallsMoveForward(ss: seq<State>, ts: seq<Step>, i: nat, j: nat, c: nat)
    requires IsRun(ss, ts) && i <= j < |ss|
    ensures Rank(ss[i].At(c)) <= Rank(ss[j].At(c))
    ensures ss[i].At(c).Id() != 0 ==> ss[j].At(c).Id() == ss[i].At(c).Id()
    decreases j - i
  {
    hide Inv;
    hide Apply;
    hide Enabled;
    hide Rank;
    if i < j {
      CallsMoveForward(ss, ts, i, j - 1, c);
      RunKeepsInv(ss, ts, j - 1);
      RunStep(ss, ts, j);
      StepMovesForward(ss[j - 1], ts[j - 1], c);
    }
  }

  /** An id is one call's for the whole run: seen twice, even at different times, it is the same call. */
  lemma IdsAreNeverReused(ss: seq<State>, ts: seq<Step>, i: nat, j: nat, c: nat, d: nat)
    requires IsRun(ss, ts) && i <= j < |ss|
    requires ss[i].At(c).Id() == ss[j].At(d).Id() != 0
    ensures c == d
  {
    CallsMoveForward(ss, ts, i, j, c);
    RunKeepsInv(ss, ts, j);
  }

  /** The message that step `n` hands to its caller, when it is a Receive. */
  ghost predicate Receives(ss: seq<State>, ts: seq<Step>, n: nat, m: Msg)
    requires IsRun(ss, ts)
  {
    && n < |ts| && ts[n].Receive?
    && ss[n + 1].At(ts[n].c) == Leaving(ss[n].At(ts[n].c).Id(), Got(m))
  }

  /** Callers only ever receive the response that bears their own id, or the connection error. */
  lemma ReceivesOwnResponse(ss: seq<State>, ts: seq<Step>, n: nat, serial: nat)
    requires IsRun(ss, ts) && Receives(ss, ts, n, Reply(serial))
    ensures serial < |ss[n].arrived| && ss[n].arrived[serial] == ss[n].At(ts[n].c).Id()
  {
    RunKeepsInv(ss, ts, n);
  }

  lemma {:induction false} ArrivalsGrow(ss: seq<State>, ts: seq<Step>, i: nat, j: nat)
    requires IsRun(ss, ts) && i <= j < |ss|
    ensures ss[i].arrived <= ss[j].arrived
    decreases j - i
  {
    if i < j {
      ArrivalsGrow(ss, ts, i, j - 1);
    }
  }

  /** No response is delivered twice, to the same caller or to two. */
  lemma NoResponseTwice(ss: seq<State>, ts: seq<Step>, i: nat, j: nat, serial: nat)
    requires IsRun(ss, ts) && i <= j
    requires Receives(ss, ts, i, Reply(serial)) && Receives(ss, ts, j, Reply(serial))
    ensures i == j
  {
    ReceivesOwnResponse(ss, ts, i, serial);
    ReceivesOwnResponse(ss, ts, j, serial);
    ArrivalsGrow(ss, ts, i, j);
    RunKeepsInv(ss, ts, i);
    var c, d := ts[i].c, ts[j].c;
    IdsAreNeverReused(ss, ts, i, j, c, d);
    if i < j {
      CallsMoveForward(ss, ts, i + 1, j, c);
    }
  }

  /** The read loop's send into a caller's channel never blocks. */
  lemma DeliveryNeverBlocks(ss: seq<State>, ts: seq<Step>, n: nat)
    requires IsRun(ss, ts) && n < |ss| && ss[n].loop.Delivering?
    ensures Enabled(ss[n], Deliver)
    ensures forall id :: id in ss[n].pending ==> id in ss[n].chans && ss[n].chans[id] == []
  {
    RunKeepsInv(ss, ts, n);
  }

  lemma Outside(a: set<int>, b: set<int>) returns (x: int)
    requires !(a <= b)
    ensures x in a && x !in b
  {
    assert (forall y :: y in a ==> y in b) ==> a <= b;
    x :| x in a && x !in b;
  }

  /** The sweep always has a next step, whatever callers do meanwhile. */
  lemma SweepNeverStuck(ss: seq<State>, ts: seq<Step>, n: nat)
    requires IsRun(ss, ts) && n < |ss| && ss[n].loop.Sweeping?
    ensures Enabled(ss[n], Put) || Enabled(ss[n], SweepEnd) || exists id :: Enabled(ss[n], Pick(id))
  {
    RunKeepsInv(ss, ts, n);
    var s := ss[n];
    if s.loop.holding == 0 && !(s.loop.due * s.pending <= s.loop.visited) {
      var id := Outside(s.loop.due * s.pending, s.loop.visited);
      assert Enabled(s, Pick(id));
    }
  }

  /** Once the loop has stopped, every waiting call that was registered before the sweep can go on. */
  lemma EarlyCallersWake(ss: seq<State>, ts: seq<Step>, n: nat, c: nat)
    requires IsRun(ss, ts) && n < |ss| && ss[n].loop.Stopped?
    requires ss[n].At(c).Waiting? && ss[n].At(c).id in ss[n].early
    ensures Enabled(ss[n], Receive(c))
  {
    RunKeepsInv(ss, ts, n);
  }

  /** A call waits on an empty channel and nobody is left to fill it. */
  ghost predicate Abandoned(s: State, c: nat) {
    s.loop.Stopped? && s.At(c).Waiting? && s.At(c).id in s.chans && s.chans[s.At(c).id] == []
  }

  lemma AbandonedStep(s: State, t: Step, c: nat)
    requires Inv(s) && Enabled(s, t) && Abandoned(s, c)
    ensures Abandoned(Apply(s, t), c)
  {
    OthersStay(s, t);
  }

  /** After the loop has stopped, a waiting call either can receive now or never will. */
  lemma {:induction false} NowOrNever(ss: seq<State>, ts: seq<Step>, i: nat, j: nat, c: nat)
    requires IsRun(ss, ts) && i <= j < |ss| && ss[i].loop.Stopped? && ss[i].At(c).Waiting?
    ensures Enabled(ss[i], Receive(c)) || (Abandoned(ss[j], c) && ss[i].At(c).id !in ss[i].early)
    decreases j - i
  {
    RunKeepsInv(ss, ts, i);
    if i < j && !Enabled(ss[i], Receive(c)) {
      NowOrNever(ss, ts, i, j - 1, c);
      RunKeepsInv(ss, ts, j - 1);
      AbandonedStep(ss[j - 1], ts[j - 1], c);
    }
  }

  /** The sweep offered the connection error to `id` after step `n` and before state `j`. */
  ghost predicate Picked(ts: seq<Step>, n: nat, j: nat, id: int) {
    exists k :: n < k < j && k < |ts| && ts[k] == Pick(id)
  }

  /** Somebody has filled the channel of `id`, or is about to. */
  predicate Reached(s: State, id: int) {
    id in s.chans && (s.chans[id] != [] || (s.loop.Sweeping? && s.loop.holding == id))
  }

  lemma NeverPicked(ts: seq<Step>, n: nat, id: int)
    ensures !Picked(ts, n, n + 1, id)
  {
  }

  lemma PickedStep(ts: seq<Step>, n: nat, j: nat, id: int)
    requires n < j < |ts|
    ensures Picked(ts, n, j + 1, id) <==> Picked(ts, n, j, id) || ts[j] == Pick(id)
  {
  }

  /** While a call awaits, only the sweep's visit reaches its channel. */
  lemma ReachedStep(s: State, t: Step, c: nat)
    requires Inv(s) && Enabled(s, t) && !s.BeforeSweep()
    requires s.At(c).Awaits() && Apply(s, t).At(c).Awaits()
    ensures Reached(Apply(s, t), s.At(c).Id()) <==> Reached(s, s.At(c).Id()) || t == Pick(s.At(c).Id())
  {
    hide PendingEmpty;
    hide OwnMessages;
    hide EarlyWake;
    OthersStay(s, t);
    if t.Receive? && t.c != c {
      assert s.At(t.c).Id() != s.At(c).Id();
    }
    if t.Store? && t.c != c {
      assert s.At(t.c).Id() != s.At(c).Id();
    }
  }

  /** A call registers with an empty channel that nobody has visited. */
  lemma StoredUnreached(s: State, c: nat)
    requires Inv(s) && Enabled(s, Store(c)) && !s.BeforeSweep()
    ensures var s' := Apply(s, Store(c));
            s'.At(c).Id() == s.At(c).Id() && !Reached(s', s.At(c).Id()) && !s'.BeforeSweep()
  {
    hide PendingEmpty;
    hide OwnMessages;
    hide EarlyWake;
  }

  lemma SweepIsFinal(s: State, t: Step)
    requires Enabled(s, t) && !s.BeforeSweep()
    ensures !Apply(s, t).BeforeSweep()
  {
  }

  lemma AwaitingHasId(s: State, c: nat)
    requires Inv(s) && s.At(c).Awaits()
    ensures s.At(c).Id() > 0
  {
  }

  lemma StoreAwaits(s: State, c: nat)
    requires Enabled(s, Store(c))
    ensures Apply(s, Store(c)).At(c).Stored?
  {
  }

  /** A call that has registered and awaits in a later state awaited in between. */
  lemma AwaitsBetween(ss: seq<State>, ts: seq<Step>, n: nat, j: nat, c: nat)
    requires IsRun(ss, ts) && n + 1 < j < |ss| && ts[n] == Store(c) && ss[j].At(c).Awaits()
    ensures ss[j - 1].At(c).Awaits()
  {
    hide Apply;
    hide Enabled;
    CallsMoveForward(ss, ts, n + 1, j - 1, c);
    CallsMoveForward(ss, ts, j - 1, j, c);
    RunStep(ss, ts, n + 1);
    StoreAwaits(ss[n], c);
    hide IsRun;
  }

  lemma {:induction false} LateCallIsReachedIffPicked(ss: seq<State>, ts: seq<Step>, n: nat, j: nat, c: nat)
    requires IsRun(ss, ts) && n < j < |ss| && ts[n] == Store(c) && !ss[n].BeforeSweep()
    requires ss[j].At(c).Awaits()
    ensures !ss[j].BeforeSweep() && ss[j].At(c).Id() == ss[n].At(c).Id()
    ensures Reached(ss[j], ss[n].At(c).Id()) <==> Picked(ts, n, j, ss[n].At(c).Id())
    decreases j
  {
    hide Inv;
    hide Apply;
    hide Enabled;
    hide Reached;
    hide Picked;
    RunKeepsInv(ss, ts, j - 1);
    RunStep(ss, ts, j);
    if j == n + 1 {
      StoredUnreached(ss[n], c);
      assert !Picked(ts, n, j, ss[n].At(c).Id()) by {
        NeverPicked(ts, n, ss[n].At(c).Id());
      }
    } else {
      AwaitsBetween(ss, ts, n, j, c);
      LateCallIsReachedIffPicked(ss, ts, n, j - 1, c);
      SweepIsFinal(ss[j - 1], ts[j - 1]);
      AwaitingHasId(ss[j - 1], c);
      CallsMoveForward(ss, ts, j - 1, j, c);
      ReachedStep(ss[j - 1], ts[j - 1], c);
      PickedStep(ts, n, j - 1, ss[n].At(c).Id());
    }
  }

  /** A call that registered when the sweep had begun, and that still waits when the loop has stopped, can
      receive exactly if the sweep came past its id after it registered. */
  lemma LateCallWakesIffPicked(ss: seq<State>, ts: seq<Step>, n: nat, j: nat, c: nat)
    requires IsRun(ss, ts) && n < j < |ss| && ts[n] == Store(c) && !ss[n].BeforeSweep()
    requires ss[j].At(c).Waiting? && ss[j].loop.Stopped?
    ensures Enabled(ss[j], Receive(c)) <==> Picked(ts, n, j, ss[n].At(c).Id())
  {
    LateCallIsReachedIffPicked(ss, ts, n, j, c);
    RunKeepsInv(ss, ts, j);
  }

  /** The call waits on an empty channel after the loop has stopped, or has given up without a message. */
  ghost predicate Unserved(s: State, c: nat) {
    && s.loop.Stopped?
    && (s.At(c).Awaits() ==> s.At(c).Id() in s.chans && s.chans[s.At(c).Id()] == [])
    && (s.At(c).Awaits() || ((s.At(c).Leaving? || s.At(c).Gone?) && s.At(c).outcome == WriteError))
  }

  lemma UnservedStep(s: State, t: Step, c: nat)
    requires Inv(s) && Enabled(s, t) && Unserved(s, c)
    ensures Unserved(Apply(s, t), c)
  {
    hide PendingEmpty;
    hide OwnMessages;
    hide EarlyWake;
    OthersStay(s, t);
  }

  lemma StoredUnserved(s: State, c: nat)
    requires Enabled(s, Store(c)) && s.loop.Stopped?
    ensures Unserved(Apply(s, Store(c)), c)
  {
  }

  /** A call that registers after the sweep never receives anything, in any run. */
  lemma {:induction false} CallAfterSweepNeverReceives(ss: seq<State>, ts: seq<Step>, n: nat, j: nat, c: nat, m: Msg)
    requires IsRun(ss, ts) && n < j < |ss| && ts[n] == Store(c) && ss[n].loop.Stopped?
    ensures Unserved(ss[j], c) && !Received(ss[j].At(c), m)
    decreases j
  {
    hide Inv;
    hide Apply;
    hide Enabled;
    RunKeepsInv(ss, ts, j - 1);
    RunStep(ss, ts, j);
    if j == n + 1 {
      StoredUnserved(ss[n], c);
    } else {
      CallAfterSweepNeverReceives(ss, ts, n, j - 1, c, m);
      UnservedStep(ss[j - 1], ts[j - 1], c);
    }
  }

  // ---- No response is lost ----------------------------------------------

  /** Response `serial` is on its way to call `c`, in its channel, or in its hands: nothing else gets there first. */
  ghost predicate OnItsWay(s: State, c: nat, id: int, serial: nat) {
    var x := s.At(c);
    && x.Id() == id && id !in s.pending
    && (x.Awaits() || ((x.Leaving? || x.Gone?) && (x.outcome == WriteError || x.outcome == Got(Reply(serial)))))
    && (x.Awaits() ==>
          && id in s.chans
          && (if s.loop.Delivering? && s.loop.id == id then s.loop.serial == serial
              else s.chans[id] == [Reply(serial)]))
  }

  lemma ArrivalStarts(s: State, c: nat)
    requires Inv(s) && s.At(c).Awaits() && s.At(c).Id() in s.pending && Enabled(s, Arrive(s.At(c).Id()))
    ensures OnItsWay(Apply(s, Arrive(s.At(c).Id())), c, s.At(c).Id(), |s.arrived|)
  {
    hide OwnMessages;
    hide EarlyWake;
  }

  lemma WayKept(s: State, t: Step, c: nat, id: int, serial: nat)
    requires Inv(s) && Enabled(s, t) && id > 0 && OnItsWay(s, c, id, serial)
    ensures OnItsWay(Apply(s, t), c, id, serial)
  {
    hide OwnMessages;
    hide EarlyWake;
    OthersStay(s, t);
    if (t.Receive? || t.Delete? || t.Store?) && t.c != c {
      assert s.At(t.c).Id() != id by {
        assert s.At(t.c).Id() > 0;
      }
    }
  }

  lemma {:induction false} ResponseStaysOnItsWay(ss: seq<State>, ts: seq<Step>, n: nat, j: nat, c: nat, id: int)
    requires IsRun(ss, ts) && n < j < |ss| && ts[n] == Arrive(id)
    requires ss[n].At(c).Awaits() && ss[n].At(c).Id() == id && id in ss[n].pending
    ensures id > 0 && OnItsWay(ss[j], c, id, |ss[n].arrived|)
    decreases j
  {
    hide Inv;
    hide Apply;
    hide Enabled;
    hide OnItsWay;
    RunKeepsInv(ss, ts, j - 1);
    RunStep(ss, ts, j);
    if j == n + 1 {
      AwaitingHasId(ss[n], c);
      ArrivalStarts(ss[n], c);
    } else {
      ResponseStaysOnItsWay(ss, ts, n, j - 1, c, id);
      WayKept(ss[j - 1], ts[j - 1], c, id, |ss[n].arrived|);
    }
  }

  /** A response that arrives while its call is pending is handed over: once the loop has put it down it is what the
      channel holds for as long as the call awaits, through the sweep too, and it is all the call can ever receive. */
  lemma ResponseIsDelivered(ss: seq<State>, ts: seq<Step>, n: nat, j: nat, c: nat, id: int, m: Msg)
    requires IsRun(ss, ts) && n < j < |ss| && ts[n] == Arrive(id)
    requires ss[n].At(c).Awaits() && ss[n].At(c).Id() == id && id in ss[n].pending
    ensures !ss[j].loop.Delivering? && ss[j].At(c).Awaits() ==>
              id in ss[j].chans && ss[j].chans[id] == [Reply(|ss[n].arrived|)]
    ensures !ss[j].loop.Delivering? && ss[j].At(c).Waiting? ==> Enabled(ss[j], Receive(c))
    ensures Received(ss[j].At(c), m) ==> m == Reply(|ss[n].arrived|)
  {
    hide IsRun;
    hide Apply;
    ResponseStaysOnItsWay(ss, ts, n, j, c, id);
  }

  /** While the loop reads, a call is pending exactly as long as nothing has been put into its channel: so the response
      that is handed over is the first. */
  lemma PendingIffUnanswered(ss: seq<State>, ts: seq<Step>, n: nat, c: nat)
    requires IsRun(ss, ts) && n < |ss| && ss[n].loop.Reading? && ss[n].At(c).Awaits()
    ensures ss[n].At(c).Id() in ss[n].chans
    ensures ss[n].At(c).Id() in ss[n].pending <==> ss[n].chans[ss[n].At(c).Id()] == []
  {
    RunKeepsInv(ss, ts, n);
  }

  // ---- What a call leaves behind ----------------------------------------

  /** A call that has returned is not pending, and neither is one that has not registered. */
  ghost predicate NotPending(s: State, c: nat) {
    !s.At(c).Awaits() && !s.At(c).Leaving? ==> s.At(c).Id() !in s.pending
  }

  lemma NotPendingStep(s: State, t: Step, c: nat)
    requires Inv(s) && Enabled(s, t) && NotPending(s, c)
    ensures NotPending(Apply(s, t), c)
  {
    hide PendingEmpty;
    hide OwnMessages;
    hide EarlyWake;
    OthersStay(s, t);
    assert s.At(c).Id() <= s.nextId;
  }

  /** Whatever way a call ends, it leaves no entry in the pending map. */
  lemma {:induction false} FinishedCallsLeaveNoEntry(ss: seq<State>, ts: seq<Step>, n: nat, c: nat)
    requires IsRun(ss, ts) && n < |ss|
    ensures NotPending(ss[n], c)
  {
    if n > 0 {
      hide Inv;
      hide Apply;
      hide Enabled;
      FinishedCallsLeaveNoEntry(ss, ts, n - 1, c);
      RunKeepsInv(ss, ts, n - 1);
      RunStep(ss, ts, n);
      NotPendingStep(ss[n - 1], ts[n - 1], c);
    }
  }

  /** Closed: the flag is set for good, and a call that has not begun can only be turned away. */
  ghost predicate TurnedAway(s: State, c: nat) {
    s.done && (s.At(c).Idle? || s.At(c) == Gone(0, ClosedEarly))
  }

  lemma TurnedAwayStep(s: State, t: Step, c: nat)
    requires Enabled(s, t) && TurnedAway(s, c)
    ensures TurnedAway(Apply(s, t), c)
  {
    OthersStay(s, t);
  }

  lemma {:induction false} NoCallBeginsAfterClose(ss: seq<State>, ts: seq<Step>, i: nat, j: nat, c: nat)
    requires IsRun(ss, ts) && i <= j < |ss| && ss[i].done && ss[i].At(c).Idle?
    ensures TurnedAway(ss[j], c)
    decreases j - i
  {
    if i < j {
      hide Apply;
      hide Enabled;
      hide TurnedAway;
      NoCallBeginsAfterClose(ss, ts, i, j - 1, c);
      RunStep(ss, ts, j);
      TurnedAwayStep(ss[j - 1], ts[j - 1], c);
    } else {
      assert TurnedAway(ss[j], c);
    }
  }

  /** The flag is set exactly by Close and by the end of the loop. */
  lemma {:induction false} DoneIffClosed(ss: seq<State>, ts: seq<Step>, n: nat)
    requires IsRun(ss, ts) && n < |ss|
    ensures ss[n].done <==> exists k :: 0 <= k < n && (ts[k].CloseDone? || ts[k].SweepEnd?)
    ensures ss[n].loop.Stopped? ==> ss[n].done
  {
    if n > 0 {
      hide Apply;
      hide Enabled;
      DoneIffClosed(ss, ts, n - 1);
      RunStep(ss, ts, n);
      DoneStep(ss[n - 1], ts[n - 1]);
    }
  }

  lemma DoneStep(s: State, t: Step)
    requires Enabled(s, t)
    ensures Apply(s, t).done <==> s.done || t.CloseDone? || t.SweepEnd?
    ensures Apply(s, t).loop.Stopped? ==> s.loop.Stopped? || t.SweepEnd?
  {
  }

  // ---- How long the sweep takes -----------------------------------------

  function Picks(ts: seq<Step>): nat {
    if ts == [] then 0 else Picks(ts[..|ts| - 1]) + (if ts[|ts| - 1].Pick? then 1 else 0)
  }

  lemma {:induction false} SetOfIds(ids: set<int>, n: nat)
    requires forall id :: id in ids ==> 0 < id <= n
    ensures |ids| <= n
    decreases n
  {
    if n == 0 {
      assert forall id :: id !in ids;
    } else {
      SetOfIds(ids - {n}, n - 1);
      assert ids - {n} == ids || |ids - {n}| == |ids| - 1;
    }
  }

  lemma IdsOnlyGrow(s: State, t: Step)
    requires Enabled(s, t)
    ensures s.nextId <= Apply(s, t).nextId && s.chans.Keys <= Apply(s, t).chans.Keys
  {
  }

  /** A visit is of an id that the sweep has not seen yet. */
  lemma VisitStep(s: State, t: Step)
    requires Enabled(s, t) && s.pending <= s.chans.Keys
    ensures var s' := Apply(s, t);
            && (s'.BeforeSweep() ==> s.BeforeSweep() && !t.Pick?)
            && (s'.loop.Stopped? ==> !t.Pick?)
            && (s'.loop.Sweeping? && s.BeforeSweep() ==> s'.loop.visited == {} && !t.Pick?)
            && (s'.loop.Sweeping? && !s.BeforeSweep() ==>
                  && s.loop.Sweeping? && s'.loop.visited <= s.loop.visited + s.chans.Keys
                  && |s'.loop.visited| == |s.loop.visited| + (if t.Pick? then 1 else 0))
  {
    if t.Pick? {
      assert Apply(s, t).loop.visited == s.loop.visited + {t.key};
    } else {
      hide Apply;
      hide Enabled;
    }
  }

  lemma {:induction false} PicksAreVisits(ss: seq<State>, ts: seq<Step>, n: nat)
    requires IsRun(ss, ts) && n < |ss|
    ensures ss[n].BeforeSweep() ==> Picks(ts[..n]) == 0
    ensures ss[n].loop.Sweeping? ==> Picks(ts[..n]) == |ss[n].loop.visited| && ss[n].loop.visited <= ss[n].chans.Keys
    ensures Picks(ts[..n]) <= ss[n].nextId
  {
    if n > 0 {
      hide Apply;
      hide Enabled;
      hide IdsUnique;
      hide PendingEmpty;
      hide OwnMessages;
      hide EarlyWake;
      PicksAreVisits(ss, ts, n - 1);
      RunKeepsInv(ss, ts, n - 1);
      RunKeepsInv(ss, ts, n);
      RunStep(ss, ts, n);
      IdsOnlyGrow(ss[n - 1], ts[n - 1]);
      VisitStep(ss[n - 1], ts[n - 1]);
      assert ts[..n][..n - 1] == ts[..n - 1];
      if ss[n].loop.Sweeping? {
        IdsInRange(ss[n]);
        hide Inv;
        SetOfIds(ss[n].loop.visited, ss[n].nextId);
      }
    }
  }

  lemma IdsInRange(s: State)
    requires Inv(s)
    ensures forall id :: id in s.chans.Keys ==> 0 < id <= s.nextId
  {
  }

  /** The sweep visits no id twice, so it makes no more visits than ids were ever given out. */
  lemma SweepIsBounded(ss: seq<State>, ts: seq<Step>)
    requires IsRun(ss, ts)
    ensures Picks(ts) <= ss[|ss| - 1].nextId
  {
    PicksAreVisits(ss, ts, |ts|);
    assert ts[..|ts|] == ts;
  }

  /** A run followed by one more enabled step. */
  lemma Extend(ss: seq<State>, ts: seq<Step>, t: Step) returns (ss': seq<State>, ts': seq<Step>)
    requires IsRun(ss, ts) && Enabled(ss[|ss| - 1], t)
    ensures IsRun(ss', ts') && ss'[|ss'| - 1] == Apply(ss[|ss| - 1], t)
  {
    ss', ts' := ss + [Apply(ss[|ss| - 1], t)], ts + [t];
  }

  /** It does happen: a caller that passes the done check and stores after the sweep waits forever. */
  lemma LateCallerIsAbandoned()
    ensures exists ss: seq<State>, ts: seq<Step> :: IsRun(ss, ts) && Abandoned(ss[|ss| - 1], 0)
  {
    var none: seq<Step> := [];
    assert IsRun([Init], none);
    var ss, ts := Extend([Init], none, CheckDone(0));
    ss, ts := Extend(ss, ts, Allocate(0));
    ss, ts := Extend(ss, ts, ReadFails);
    ss, ts := Extend(ss, ts, SweepEnd);
    ss, ts := Extend(ss, ts, Store(0));
    ss, ts := Extend(ss, ts, WriteOk(0));
    assert Abandoned(ss[|ss| - 1], 0);
  }
}
