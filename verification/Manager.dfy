/**
  The display manager over its seats (src/display-manager.c) with the handler that replaces a
  removed seat or gives up (src/lightdm.c). A seat may stop while it is being told to, and the
  manager may be stopped from inside the handler of a removed seat.
 */
module Manager {
  import opened Octets
  import opened Lists

  type SeatId = nat

  /** The properties that the handler of a removed seat reads. */
  datatype SeatInfo = SeatInfo(types: seq<Text>, exitOnFailure: bool)

  datatype Entry = Added(seat: SeatId) | Removed(seat: SeatId) | Stopped(nSeats: nat)

  datatype State = State(
    made: seq<SeatInfo>,     // every seat made so far, by number
    seats: seq<SeatId>,
    told: set<SeatId>,       // seats that were told to stop
    stopping: bool,
    stopped: bool,
    failed: bool,            // the exit code is a failure
    log: seq<Entry>)

  /** What seats do while one call runs. */
  datatype Env = Env(
    starts: bool,            // a seat that is added starts
    creatable: set<Text>,    // seat types for which there is a module
    atOnce: set<SeatId>)     // seats that stop while they are told to

  function CheckStopped(m: State): State {
    if m.stopping && !m.stopped && m.seats == [] then m.(stopped := true, log := m.log + [Stopped(|m.seats|)]) else m
  }

  /** `seat_stopped_cb` in a manager that is stopping. */
  function SeatGone(m: State, x: SeatId): State {
    CheckStopped(m.(seats := Without(m.seats, x)))
  }

  /** The loop over the copied list: each seat is told, and one that stops at once is gone at once. */
  function TellAll(m: State, ids: seq<SeatId>, atOnce: set<SeatId>): (t: State)
    decreases |ids|
  {
    if ids == [] then m
    else
      var told := m.(told := m.told + {ids[0]});
      TellAll(if ids[0] in atOnce then SeatGone(told, ids[0]) else told, ids[1..], atOnce)
  }

  function Stop(m: State, env: Env): State {
    if m.stopping then m else CheckStopped(TellAll(m.(stopping := true), m.seats, env.atOnce))
  }

  function Add(m: State, env: Env, info: SeatInfo): State {
    if m.stopping || !env.starts then m
    else m.(made := m.made + [info], seats := m.seats + [|m.made|], log := m.log + [Added(|m.made|)])
  }

  /** The types to try next: from the first one after the current that can be made. */
  function NextTypes(types: seq<Text>, creatable: set<Text>): (r: seq<Text>)
    ensures |r| < |types| || r == types == []
    ensures r != [] ==> r[0] in creatable && r == types[|types| - |r|..]
    ensures forall k :: 1 <= k < |types| - |r| ==> types[k] !in creatable
  {
    if |types| <= 1 then []
    else if types[1] in creatable then types[1..]
    else
      var r := NextTypes(types[1..], creatable);
      TailOfTail(types, |types| - 1 - |r|);
      r
  }

  lemma TailOfTail(types: seq<Text>, n: nat)
    requires n < |types|
    ensures types[1..][n..] == types[n + 1..]
    ensures forall k :: 2 <= k < n + 1 ==> types[1..][k - 1] == types[k]
  {
  }

  /** `display_manager_seat_removed_cb`. */
  function OnRemoved(m: State, env: Env, info: SeatInfo): State {
    var next := NextTypes(info.types, env.creatable);
    if next != [] then Add(m, env, SeatInfo(next, info.exitOnFailure))
    else if info.exitOnFailure then Stop(m.(failed := true), env)
    else m
  }

  /** `seat_stopped_cb`. */
  function SeatStopped(m: State, env: Env, x: SeatId): State
    requires x < |m.made|
  {
    var t := m.(seats := Without(m.seats, x));
    CheckStopped(if m.stopping then t else OnRemoved(t.(log := t.log + [Removed(x)]), env, m.made[x]))
  }

  // ------------------------------------------------------------------ the object

  class DisplayManager {
    var made: seq<SeatInfo>
    var seats: seq<SeatId>
    var told: set<SeatId>
    var stopping: bool
    var stopped: bool
    var failed: bool
    var log: seq<Entry>

    ghost function View(): State
      reads this
    {
      State(made, seats, told, stopping, stopped, failed, log)
    }

    constructor ()
      ensures View() == State([], [], {}, false, false, false, [])
    {
      made, seats, told, stopping, stopped, failed, log := [], [], {}, false, false, false, [];
    }

    method CheckIfStopped()
      modifies this
      ensures View() == CheckStopped(old(View()))
    {
      if stopping && !stopped && |seats| == 0 {
        stopped := true;
        log := log + [Stopped(|seats|)];
      }
    }

    method StopManager(env: Env)
      modifies this
      ensures View() == Stop(old(View()), env)
    {
      if stopping {
        return;
      }
      stopping := true;
      ghost var start := View();
      var copy := seats;
      var i := 0;
      while i < |copy|
        invariant 0 <= i <= |copy|
        invariant TellAll(View(), copy[i..], env.atOnce) == TellAll(start, copy, env.atOnce)
      {
        assert copy[i..][1..] == copy[i + 1..];
        told := told + {copy[i]};
        if copy[i] in env.atOnce {
          seats := Remove(seats, copy[i]);
          CheckIfStopped();
        }
        i := i + 1;
      }
      CheckIfStopped();
    }

    method AddSeat(env: Env, info: SeatInfo) returns (ok: bool)
      modifies this
      ensures View() == Add(old(View()), env, info)
      ensures ok <==> !old(stopping) && env.starts
    {
      if stopping {
        return false;
      }
      if !env.starts {
        return false;
      }
      seats := seats + [|made|];
      log := log + [Added(|made|)];
      made := made + [info];
      return true;
    }

    method SeatRemovedCb(env: Env, info: SeatInfo)
      modifies this
      ensures View() == OnRemoved(old(View()), env, info)
    {
      var next := NextTypes(info.types, env.creatable);
      if next != [] {
        var _ := AddSeat(env, SeatInfo(next, info.exitOnFailure));
      } else if info.exitOnFailure {
        failed := true;
        StopManager(env);
      }
    }

    method SeatStoppedCb(env: Env, x: SeatId)
      requires x < |made|
      modifies this
      ensures View() == SeatStopped(old(View()), env, x)
    {
      seats := Remove(seats, x);
      if !stopping {
        log := log + [Removed(x)];
        SeatRemovedCb(env, made[x]);
      }
      CheckIfStopped();
    }
  }

  // ------------------------------------------------------------------ what each call does

  /** A seat is taken, and announced, exactly by a manager that is not stopping if it starts. */
  lemma AddTakes(m: State, env: Env, info: SeatInfo)
    ensures !m.stopping && env.starts ==>
              Add(m, env, info) == m.(made := m.made + [info], seats := m.seats + [|m.made|], log := m.log + [Added(|m.made|)])
    ensures m.stopping || !env.starts ==> Add(m, env, info) == m
  {
  }

  /** The seats of a list that do not stop at once, in their order. */
  function Slow(ids: seq<SeatId>, atOnce: set<SeatId>): (r: seq<SeatId>)
    ensures forall x :: x in r <==> x in ids && x !in atOnce
  {
    if ids == [] then [] else (if ids[0] in atOnce then [] else [ids[0]]) + Slow(ids[1..], atOnce)
  }

  /** The manager after some seats were told, with these seats left. */
  function Told(m: State, left: seq<SeatId>, ids: seq<SeatId>): State {
    var stops := left == [] && ids != [] && !m.stopped;
    m.(seats := left, told := m.told + (set x | x in ids), stopped := m.stopped || stops,
       log := if stops then m.log + [Stopped(0)] else m.log)
  }

  lemma {:induction false} TellAllLeaves(m: State, front: seq<SeatId>, ids: seq<SeatId>, atOnce: set<SeatId>)
    requires m.seats == front + ids && Distinct(m.seats) && m.stopping && (m.stopped ==> m.seats == [])
    ensures TellAll(m, ids, atOnce) == Told(m, front + Slow(ids, atOnce), ids)
    decreases |ids|
  {
    hide Distinct, Without, Told, TellAll, Slow, SeatGone;
    if ids == [] {
      ToldNothing(m, front, atOnce);
    } else {
      TellHead(m, ids, atOnce);
      ListParts(m, front, ids);
      if ids[0] in atOnce {
        LeavesMiddle(front, ids[0], ids[1..]);
        SeatGoneIs(m.(told := m.told + {ids[0]}), ids[0], front + ids[1..]);
        TellAllLeaves(SeatGone(m.(told := m.told + {ids[0]}), ids[0]), front, ids[1..], atOnce);
        ToldGone(m, front, ids, atOnce);
      } else {
        TellAllLeaves(m.(told := m.told + {ids[0]}), front + [ids[0]], ids[1..], atOnce);
        SlowHead(front, ids, atOnce);
        ToldSlow(m, front + Slow(ids, atOnce), ids);
      }
    }
  }

  lemma ListParts(m: State, front: seq<SeatId>, ids: seq<SeatId>)
    requires m.seats == front + ids && ids != []
    ensures m.seats == front + [ids[0]] + ids[1..] && m.seats == (front + [ids[0]]) + ids[1..]
  {
  }

  lemma SlowHead(front: seq<SeatId>, ids: seq<SeatId>, atOnce: set<SeatId>)
    requires ids != [] && ids[0] !in atOnce
    ensures front + [ids[0]] + Slow(ids[1..], atOnce) == front + Slow(ids, atOnce) && front + Slow(ids, atOnce) != []
  {
  }

  lemma TellHead(m: State, ids: seq<SeatId>, atOnce: set<SeatId>)
    requires ids != []
    ensures var told := m.(told := m.told + {ids[0]});
            TellAll(m, ids, atOnce) == TellAll(if ids[0] in atOnce then SeatGone(told, ids[0]) else told, ids[1..], atOnce)
  {
  }

  lemma ToldNothing(m: State, front: seq<SeatId>, atOnce: set<SeatId>)
    requires m.seats == front + []
    ensures TellAll(m, [], atOnce) == Told(m, front + Slow([], atOnce), [])
  {
    assert front + [] == front;
    assert m.told + (set x: SeatId | x in []) == m.told;
  }

  lemma ToldSlow(m: State, left: seq<SeatId>, ids: seq<SeatId>)
    requires ids != [] && left != []
    ensures Told(m.(told := m.told + {ids[0]}), left, ids[1..]) == Told(m, left, ids)
  {
    HeadTold(m.told, ids);
  }

  lemma ToldGone(m: State, front: seq<SeatId>, ids: seq<SeatId>, atOnce: set<SeatId>)
    requires ids != [] && ids[0] in atOnce && !m.stopped && m.stopping
    ensures var told := m.(told := m.told + {ids[0]});
            var left := front + ids[1..];
            var next := if left == [] then told.(seats := [], stopped := true, log := told.log + [Stopped(0)]) else told.(seats := left);
            Told(next, front + Slow(ids[1..], atOnce), ids[1..]) == Told(m, front + Slow(ids, atOnce), ids)
  {
    HeadTold(m.told, ids);
    assert [] + Slow(ids[1..], atOnce) == Slow(ids[1..], atOnce);
  }

  lemma HeadTold(told: set<SeatId>, ids: seq<SeatId>)
    requires ids != []
    ensures told + {ids[0]} + (set x | x in ids[1..]) == told + (set x | x in ids)
  {
    assert ids == [ids[0]] + ids[1..];
  }

  lemma SeatGoneIs(m: State, x: SeatId, left: seq<SeatId>)
    requires Without(m.seats, x) == left && m.stopping && !m.stopped
    ensures SeatGone(m, x) == if left == [] then m.(seats := [], stopped := true, log := m.log + [Stopped(0)]) else m.(seats := left)
  {
  }

  lemma LeavesMiddle(front: seq<SeatId>, x: SeatId, back: seq<SeatId>)
    requires Distinct(front + [x] + back)
    ensures Without(front + [x] + back, x) == front + back && Distinct(front + back)
    decreases |front|
  {
    var all := front + [x] + back;
    assert all[|front|] == x;
    if front == [] {
      assert all[1..] == back;
      assert Distinct(back) by {
        assert forall i :: 0 <= i < |back| ==> back[i] == all[i + 1];
      }
    } else {
      assert all[0] == front[0] && all[0] != x;
      assert all[1..] == front[1..] + [x] + back;
      assert Distinct(all[1..]);
      LeavesMiddle(front[1..], x, back);
      assert front + back == [front[0]] + (front[1..] + back);
      WithoutFacts(all, x);
    }
  }

  /**
    A stop tells every seat; those that stop at once are gone and the others stay in their order.
    STOPPED comes at once exactly if none stays.
   */
  lemma StopTells(m: State, env: Env)
    requires !m.stopping && !m.stopped && Distinct(m.seats)
    ensures var t := Stop(m, env);
            && t.stopping && t.told == m.told + (set x | x in m.seats) && t.seats == Slow(m.seats, env.atOnce)
            && (t.stopped <==> t.seats == []) && t.log == (if t.stopped then m.log + [Stopped(0)] else m.log)
            && t.made == m.made && t.failed == m.failed
  {
    hide Distinct, TellAll, Slow;
    var begun := m.(stopping := true);
    assert m.seats == [] + m.seats;
    TellAllLeaves(begun, [], m.seats, env.atOnce);
    assert [] + Slow(m.seats, env.atOnce) == Slow(m.seats, env.atOnce);
    if m.seats == [] {
      NoneSlow(env.atOnce);
    }
  }

  lemma NoneSlow(atOnce: set<SeatId>)
    ensures Slow([], atOnce) == []
  {
  }

  /** The first type after the current one that can be made, if there is one. */
  ghost predicate FirstCreatable(types: seq<Text>, creatable: set<Text>, k: nat) {
    1 <= k < |types| && types[k] in creatable && forall j :: 1 <= j < k ==> types[j] !in creatable
  }

  /**
    A seat that stops by itself is announced as removed. If another of its types can be made, a
    seat with that type and those behind it takes its place if it starts; if none can, a required
    seat makes the manager fail and stop, and any other is just gone.
   */
  lemma StoppedSeatReplaced(m: State, env: Env, x: SeatId)
    requires !m.stopping && !m.stopped && x < |m.made| && Distinct(m.seats)
    ensures var info, t := m.made[x], SeatStopped(m, env, x);
            var gone := m.(seats := Without(m.seats, x), log := m.log + [Removed(x)]);
            && (forall k: nat :: FirstCreatable(info.types, env.creatable, k) ==>
                  t == if !env.starts then gone
                       else gone.(made := m.made + [SeatInfo(info.types[k..], info.exitOnFailure)], seats := gone.seats + [|m.made|],
                                  log := gone.log + [Added(|m.made|)]))
            && ((forall k: nat :: !FirstCreatable(info.types, env.creatable, k)) ==>
                  if info.exitOnFailure then t.failed && t.stopping && t.seats == Slow(gone.seats, env.atOnce)
                                             && t.told == m.told + (set y | y in gone.seats) && (t.stopped <==> t.seats == [])
                  else t == gone)
  {
    hide Stop, Without, NextTypes, Distinct, FirstCreatable, Slow;
    var info := m.made[x];
    var gone := m.(seats := Without(m.seats, x), log := m.log + [Removed(x)]);
    var next := NextTypes(info.types, env.creatable);
    WithoutFacts(m.seats, x);
    NextIs(info.types, env.creatable);
    if next != [] {
      assert FirstCreatable(info.types, env.creatable, |info.types| - |next|);
      forall k: nat | FirstCreatable(info.types, env.creatable, k) ensures k == |info.types| - |next| {
        FirstOnly(info.types, env.creatable, k, |info.types| - |next|);
      }
    } else if info.exitOnFailure {
      StopTells(gone.(failed := true), env);
      StopFailed(gone.(failed := true), env);
    }
  }

  lemma FirstOnly(types: seq<Text>, creatable: set<Text>, k: nat, l: nat)
    requires FirstCreatable(types, creatable, k) && FirstCreatable(types, creatable, l)
    ensures k == l
  {
  }

  /** A stop leaves nothing for the check after it. */
  lemma StopFailed(m: State, env: Env)
    ensures m.stopping || CheckStopped(Stop(m, env)) == Stop(m, env)
  {
    hide TellAll;
  }

  lemma {:induction false} NextIs(types: seq<Text>, creatable: set<Text>)
    ensures var r := NextTypes(types, creatable);
            if r != [] then FirstCreatable(types, creatable, |types| - |r|) && r == types[|types| - |r|..]
            else forall k: nat :: !FirstCreatable(types, creatable, k)
    decreases |types|
  {
    if |types| > 1 && types[1] !in creatable {
      NextIs(types[1..], creatable);
      if k: nat :| FirstCreatable(types, creatable, k) {
        assert types[1..][k - 1] == types[k];
        assert FirstCreatable(types[1..], creatable, k - 1);
      }
    }
  }

  /** In a stopping manager a seat that stops is just gone, and the last one brings STOPPED. */
  lemma StoppedSeatGone(m: State, env: Env, x: SeatId)
    requires m.stopping && !m.stopped && x < |m.made|
    ensures var t := SeatStopped(m, env, x);
            && t.seats == Without(m.seats, x) && (t.stopped <==> t.seats == [])
            && t == m.(seats := t.seats, stopped := t.stopped, log := if t.stopped then m.log + [Stopped(0)] else m.log)
  {
  }

  // ------------------------------------------------------------------ every run

  datatype Event = Adds(info: SeatInfo) | Stops | SeatStops(seat: SeatId)

  function Next(m: State, env: Env, e: Event): State {
    match e
    case Adds(info) => Add(m, env, info)
    case Stops => Stop(m, env)
    case SeatStops(x) => if x in m.seats && x < |m.made| then SeatStopped(m, env, x) else m
  }

  datatype Happening = Happening(env: Env, event: Event)

  function Run(m: State, hs: seq<Happening>): (t: State)
    decreases |hs|
  {
    if hs == [] then m else Run(Next(m, hs[0].env, hs[0].event), hs[1..])
  }

  const INITIAL := State([], [], {}, false, false, false, [])

  /** Holds even between the calls of a handler. */
  ghost predicate Sound(m: State) {
    && Distinct(m.seats) && (forall x <- m.seats :: x < |m.made|)
    && (m.stopped ==> m.stopping && m.seats == [])
    && (forall e <- m.log :: e.Stopped? ==> e == Stopped(0) && m.stopped)
    && (forall i, j :: 0 <= i < j < |m.log| && m.log[i].Stopped? ==> !m.log[j].Stopped?)
  }

  /** A manager that is stopping has told every seat it has, and has stopped if it has none. */
  ghost predicate Settled(m: State) {
    m.stopping ==> (forall x <- m.seats :: x in m.told) && (m.seats == [] ==> m.stopped)
  }

  lemma CheckSound(m: State)
    requires Sound(m)
    ensures Sound(CheckStopped(m)) && CheckStopped(m).seats == m.seats && CheckStopped(m).made == m.made
    ensures CheckStopped(m).told == m.told && CheckStopped(m).stopping == m.stopping
    ensures m.stopping && m.seats == [] ==> CheckStopped(m).stopped
  {
  }

  lemma RemoveSound(m: State, x: SeatId)
    requires Sound(m)
    ensures Sound(m.(seats := Without(m.seats, x)))
  {
    WithoutFacts(m.seats, x);
  }

  /** The loop tells every seat of the copy; those that stop at once are gone from the list. */
  lemma {:induction false} TellAllSound(m: State, ids: seq<SeatId>, atOnce: set<SeatId>)
    requires Sound(m)
    ensures var t := TellAll(m, ids, atOnce);
            && Sound(t) && t.stopping == m.stopping && t.made == m.made
            && m.told <= t.told && (forall x <- ids :: x in t.told)
            && (forall x <- t.seats :: x in m.seats)
    decreases |ids|
  {
    hide Sound;
    if ids != [] {
      var told := m.(told := m.told + {ids[0]});
      assert Sound(told) by { ToldSound(m, ids[0]); }
      var next := if ids[0] in atOnce then SeatGone(told, ids[0]) else told;
      assert Sound(next) && next.stopping == m.stopping && next.made == m.made && next.told == told.told
             && (forall x <- next.seats :: x in m.seats) by
      {
        GoneSound(told, ids[0]);
      }
      TellAllSound(next, ids[1..], atOnce);
      assert ids == [ids[0]] + ids[1..];
    }
  }

  lemma ToldSound(m: State, x: SeatId)
    requires Sound(m)
    ensures Sound(m.(told := m.told + {x}))
  {
  }

  lemma GoneSound(m: State, x: SeatId)
    requires Sound(m)
    ensures var t := SeatGone(m, x);
            Sound(t) && t.stopping == m.stopping && t.made == m.made && t.told == m.told && forall y <- t.seats :: y in m.seats
  {
    RemoveSound(m, x);
    CheckSound(m.(seats := Without(m.seats, x)));
    WithoutFacts(m.seats, x);
  }

  lemma BeginSound(m: State)
    requires Sound(m)
    ensures Sound(m.(stopping := true))
  {
  }

  lemma StopSound(m: State, env: Env)
    requires Sound(m) && (m.stopping ==> Settled(m))
    ensures Sound(Stop(m, env)) && Settled(Stop(m, env)) && Stop(m, env).stopping
  {
    hide Sound, CheckStopped;
    if !m.stopping {
      BeginSound(m);
      TellAllSound(m.(stopping := true), m.seats, env.atOnce);
      CheckSound(TellAll(m.(stopping := true), m.seats, env.atOnce));
    }
  }

  lemma AddSound(m: State, env: Env, info: SeatInfo)
    requires Sound(m) && Settled(m)
    ensures Sound(Add(m, env, info)) && Settled(Add(m, env, info)) && Add(m, env, info).stopping == m.stopping
    ensures m.stopping ==> Add(m, env, info) == m
  {
    DistinctSnoc(m.seats, |m.made|);
  }

  lemma NotedSound(m: State, x: SeatId)
    requires Sound(m)
    ensures Sound(m.(log := m.log + [Removed(x)])) && Sound(m.(failed := true))
  {
  }

  lemma OnRemovedSound(m: State, env: Env, info: SeatInfo)
    requires Sound(m) && !m.stopping
    ensures Sound(OnRemoved(m, env, info)) && Settled(OnRemoved(m, env, info))
  {
    hide Sound, Stop, Add, NextTypes;
    NotedSound(m, 0);
    StopSound(m.(failed := true), env);
    var next := NextTypes(info.types, env.creatable);
    AddSound(m, env, SeatInfo(next, info.exitOnFailure));
  }

  lemma SeatStoppedSound(m: State, env: Env, x: SeatId)
    requires Sound(m) && Settled(m) && x in m.seats && x < |m.made|
    ensures var t := SeatStopped(m, env, x);
            && Sound(t) && Settled(t)
            && (m.stopping ==> t.stopping && |t.seats| == |m.seats| - 1)
  {
    hide Sound, CheckStopped, OnRemoved;
    var t := m.(seats := Without(m.seats, x));
    RemoveSound(m, x);
    assert Distinct(m.seats) by { SoundDistinct(m); }
    WithoutFacts(m.seats, x);
    if m.stopping {
      CheckSound(t);
    } else {
      NotedSound(t, x);
      var u := t.(log := t.log + [Removed(x)]);
      OnRemovedSound(u, env, m.made[x]);
      CheckSound(OnRemoved(u, env, m.made[x]));
    }
  }

  lemma SoundDistinct(m: State)
    requires Sound(m)
    ensures Distinct(m.seats)
  {
  }

  /** Every event keeps the manager sound, even one that stops it from inside a removed seat's handler. */
  lemma NextSound(m: State, env: Env, e: Event)
    requires Sound(m) && Settled(m)
    ensures Sound(Next(m, env, e)) && Settled(Next(m, env, e))
    ensures m.stopping ==> Next(m, env, e).stopping && |Next(m, env, e).seats| <= |m.seats|
    ensures m.stopping && e.SeatStops? && e.seat in m.seats ==> |Next(m, env, e).seats| == |m.seats| - 1
  {
    hide Add, Stop, SeatStopped, Settled;
    match e {
      case Adds(info) => AddSound(m, env, info);
      case Stops =>
        StopSound(m, env);
        assert m.stopping ==> Stop(m, env) == m by { StopTwice(m, env); }
      case SeatStops(x) =>
        if x in m.seats {
          SeatStoppedSound(m, env, x);
        }
    }
  }

  lemma StopTwice(m: State, env: Env)
    ensures m.stopping ==> Stop(m, env) == m
  {
  }

  lemma {:induction false} RunSound(m: State, hs: seq<Happening>)
    requires Sound(m) && Settled(m)
    ensures Sound(Run(m, hs)) && Settled(Run(m, hs))
    decreases |hs|
  {
    hide Sound, Settled, Next;
    if hs != [] {
      NextSound(m, hs[0].env, hs[0].event);
      RunSound(Next(m, hs[0].env, hs[0].event), hs[1..]);
    }
  }

  /**
    In every run the manager emits STOPPED at most once and only without seats; once it is
    stopping it has told every seat it still has, and with none left it has emitted STOPPED.
   */
  lemma ManagerStops(hs: seq<Happening>)
    ensures var m := Run(INITIAL, hs);
            && (forall i, j :: 0 <= i < |m.log| && 0 <= j < |m.log| && m.log[i].Stopped? && m.log[j].Stopped? ==> i == j)
            && (forall e <- m.log :: e.Stopped? ==> e == Stopped(0))
            && (m.stopping ==> (forall x <- m.seats :: x in m.told) && (m.seats == [] <==> m.stopped))
  {
    RunSound(INITIAL, hs);
  }

  /** The stop signals of listed seats in a run. */
  function SeatStopsIn(m: State, hs: seq<Happening>): nat
    decreases |hs|
  {
    if hs == [] then 0
    else (if hs[0].event.SeatStops? && hs[0].event.seat in m.seats then 1 else 0)
         + SeatStopsIn(Next(m, hs[0].env, hs[0].event), hs[1..])
  }

  /** A stopping manager loses a seat with every stop signal and gains none, whatever else is asked of it. */
  lemma {:induction false} ManagerDrains(m: State, hs: seq<Happening>)
    requires Sound(m) && Settled(m) && m.stopping
    ensures |Run(m, hs).seats| + SeatStopsIn(m, hs) <= |m.seats|
    ensures SeatStopsIn(m, hs) == |m.seats| ==> Run(m, hs).stopped
    decreases |hs|
  {
    hide Sound, Next;
    if hs != [] {
      NextSound(m, hs[0].env, hs[0].event);
      ManagerDrains(Next(m, hs[0].env, hs[0].event), hs[1..]);
    }
  }
}
