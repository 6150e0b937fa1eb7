/**
  Virtual terminals and X display numbers (src/vt.c, src/x-server-local.c): how they are handed
  out first-fit, and who holds them: local X servers, Unity compositors and Wayland sessions
  (src/unity-system-compositor.c, src/wayland-session.c), made by local and Unity seats
  (src/seat-local.c, src/seat-unity.c) that may take over the boot splash's VT (src/plymouth.c).
 */
module Vts {
  import opened Octets
  import opened Lists

  // ------------------------------------------------------------------ first fit

  /** The least number from `n` on that is not in a list. */
  function LeastFree(used: seq<int>, n: int): (r: int)
    ensures n <= r <= n + |used|
    decreases |used|
  {
    if n in used then
      WithoutShorter(used, n);
      LeastFree(Without(used, n), n + 1)
    else n
  }

  lemma {:induction false} WithoutShorter(xs: seq<int>, x: int)
    requires x in xs
    ensures |Without(xs, x)| == |xs| - 1
    decreases |xs|
  {
    if xs[0] != x {
      WithoutShorter(xs[1..], x);
    }
  }

  lemma {:induction false} WithoutIn(xs: seq<int>, x: int)
    ensures forall y :: y in Without(xs, x) ==> y in xs
    decreases |xs|
  {
    if xs != [] {
      WithoutIn(xs[1..], x);
      assert xs == [xs[0]] + xs[1..];
    }
  }

  lemma {:induction false} LeastFreeFacts(used: seq<int>, n: int)
    ensures LeastFree(used, n) !in used
    ensures forall k :: n <= k < LeastFree(used, n) ==> k in used
    decreases |used|
  {
    if n in used {
      var rest := Without(used, n);
      WithoutShorter(used, n);
      LeastFreeFacts(rest, n + 1);
      WithoutIn(used, n);
      var r := LeastFree(rest, n + 1);
      if r in used {
        WithoutOthers(used, n, r);
      }
    }
  }

  /** The least free number is the only one with its two properties. */
  lemma LeastFreeOnly(used: seq<int>, n: int, r: int)
    requires n <= r && r !in used && forall k :: n <= k < r ==> k in used
    ensures r == LeastFree(used, n)
  {
    LeastFreeFacts(used, n);
  }

  // ------------------------------------------------------------------ state

  datatype Kind = X | Compositor | Wayland

  /**
    Made, running once it has started, ended once `stopped_cb` has run. A compositor that does not
    start is failed: its `stopped_cb` does not run.
   */
  datatype Phase = Made | Running | Failed | Ended

  datatype Server = Server(kind: Kind, vt: int, haveRef: bool, phase: Phase, dead: bool, number: int, released: nat)

  datatype Splash = Splash(pinged: bool, running: bool, active: bool, checkedVt: bool, hasVt: bool)

  datatype Host = Host(
    root: bool,
    minimum: int,             // the configured minimum VT
    minimumDisplay: int,
    used: seq<int>,           // used_vts
    numbers: seq<int>,        // display_numbers
    servers: seq<Server>,     // every server made so far
    splash: Splash,
    splashTaken: seq<seq<int>>) // the used VTs at each take-over of the splash's VT

  /** What the splash and the kernel answer. */
  datatype Env = Env(pings: bool, hasVt: bool, activeVt: int, multiSeat: bool, locked: seq<int>)

  function MinVt(h: Host): int {
    if h.minimum < 1 then 1 else h.minimum
  }

  function Unused(h: Host): int {
    if !h.root then -1 else LeastFree(h.used, MinVt(h))
  }

  // ------------------------------------------------------------------ references

  /** `*_set_vt`. */
  function SetVt(h: Host, i: nat, vt: int): Host
    requires i < |h.servers|
  {
    var s := h.servers[i];
    var freed := if s.haveRef then Without(h.used, s.vt) else h.used;
    h.(used := if vt > 0 then freed + [vt] else freed, servers := h.servers[i := s.(vt := vt, haveRef := vt > 0)])
  }

  function DropVt(h: Host, i: nat): Host
    requires i < |h.servers|
  {
    var s := h.servers[i];
    if s.haveRef then h.(used := Without(h.used, s.vt), servers := h.servers[i := s.(haveRef := false)]) else h
  }

  /** `stopped_cb`: an X server gives back its display number too; a Wayland session has no process. */
  function OnStopped(h: Host, i: nat): Host
    requires i < |h.servers|
  {
    var t := DropVt(h, i);
    var s := t.servers[i];
    if s.kind.X?
    then t.(numbers := Without(t.numbers, s.number), servers := t.servers[i := s.(phase := Ended, released := s.released + 1)])
    else t.(servers := t.servers[i := s.(phase := Ended)])
  }

  function Finalize(h: Host, i: nat): Host
    requires i < |h.servers|
  {
    var t := DropVt(h, i);
    t.(servers := t.servers[i := t.servers[i].(dead := true)])
  }

  /**
    `x_server_local_start` and `unity_system_compositor_start`: once only. A failure runs an X
    server's `stopped_cb`, and nothing of a compositor's, which fails for good once it has a
    process object and may be tried again before (`early`).
   */
  function StartServer(h: Host, i: nat, ok: bool, early: bool): Host
    requires i < |h.servers|
  {
    var s := h.servers[i];
    if s.dead || !s.phase.Made? || s.kind.Wayland? then h
    else if ok then h.(servers := h.servers[i := s.(phase := Running)])
    else if s.kind.X? then OnStopped(h, i)
    else if early then h
    else h.(servers := h.servers[i := s.(phase := Failed)])
  }

  // ------------------------------------------------------------------ choosing a VT

  function Ping(h: Host, env: Env): Host {
    if h.splash.pinged then h else h.(splash := h.splash.(pinged := true, running := env.pings, active := env.pings))
  }

  predicate SplashOn(h: Host) {
    h.splash.running && h.splash.active
  }

  function CheckVt(h: Host, env: Env): Host {
    if h.splash.checkedVt then h else h.(splash := h.splash.(checkedVt := true, hasVt := env.hasVt))
  }

  function Quit(h: Host): Host {
    h.(splash := h.splash.(pinged := true, running := false))
  }

  datatype Chosen = Chosen(host: Host, vt: int)

  /** The splash's VT if the splash is on it and it is high enough; the splash gives way either way. */
  function TakeSplash(h: Host, env: Env, deactivate: bool): Chosen {
    var a := Ping(h, env);
    var b := if SplashOn(a) then CheckVt(a, env) else a;
    var takes := SplashOn(a) && b.splash.hasVt && env.activeVt >= MinVt(h);
    var c := if !takes then b
             else if deactivate then b.(splash := b.splash.(active := false), splashTaken := b.splashTaken + [b.used])
             else Quit(b).(splashTaken := b.splashTaken + [b.used]);
    Chosen(if SplashOn(c) then Quit(c) else c, if takes then env.activeVt else -1)
  }

  /** `get_vt` of a local seat. */
  function GetVt(h: Host, env: Env, seat0: bool): Chosen {
    if !seat0 then Chosen(h, -1)
    else
      var c := TakeSplash(h, env, true);
      if c.vt < 0 then c.(vt := Unused(c.host)) else c
  }

  /** The VT that `seat_unity_start` chooses. */
  function UnityVt(h: Host, env: Env): Chosen {
    var c := TakeSplash(h, env, false);
    if c.vt < 0 then c.(vt := if env.multiSeat then Unused(c.host) else 0) else c
  }

  // ------------------------------------------------------------------ making servers

  function AddServer(h: Host, kind: Kind, env: Env): Host {
    var number := LeastFree(h.numbers + env.locked, h.minimumDisplay);
    if kind.X?
    then h.(numbers := h.numbers + [number], servers := h.servers + [Server(kind, -1, false, Made, false, number, 0)])
    else h.(servers := h.servers + [Server(kind, -1, false, Made, false, 0, 0)])
  }

  /** A local seat makes a server and gives it a VT if there is one. */
  function MakeLocal(h: Host, kind: Kind, env: Env, seat0: bool): Host {
    var a := AddServer(h, kind, env);
    var c := GetVt(a, env, seat0);
    if c.vt >= 0 then SetVt(c.host, |h.servers|, c.vt) else c.host
  }

  /** A Unity seat starts: without a VT it fails before it makes its compositor. */
  function MakeUnity(h: Host, env: Env): Host {
    var c := UnityVt(h, env);
    if c.vt < 0 then c.host else SetVt(AddServer(c.host, Compositor, env), |h.servers|, c.vt)
  }

  datatype Event =
    | Local(kind: Kind, seat0: bool)
    | XmirServer                       // an X server on a compositor: a display number and no VT
    | Unity
    | Start(server: nat, ok: bool, early: bool)
    | ProcessStops(server: nat)
    | Finalizes(server: nat)
    | SplashQuits

  function Next(h: Host, env: Env, e: Event): Host {
    match e
    case Local(kind, seat0) => MakeLocal(h, kind, env, seat0)
    case XmirServer => AddServer(h, X, env)
    case Unity => MakeUnity(h, env)
    case Start(i, ok, early) => if i < |h.servers| then StartServer(h, i, ok, early) else h
    case ProcessStops(i) =>
      if i < |h.servers| && h.servers[i].phase.Running? && !h.servers[i].dead then OnStopped(h, i) else h
    case Finalizes(i) => if i < |h.servers| && !h.servers[i].dead then Finalize(h, i) else h
    case SplashQuits => Quit(h)
  }

  datatype Happening = Happening(env: Env, event: Event)

  function Run(h: Host, hs: seq<Happening>): (t: Host)
    decreases |hs|
  {
    if hs == [] then h else Run(Next(h, hs[0].env, hs[0].event), hs[1..])
  }

  function Initial(root: bool, minimum: int, minimumDisplay: int): Host {
    Host(root, minimum, minimumDisplay, [], [], [], Splash(false, false, false, false, false), [])
  }

  // ------------------------------------------------------------------ the invariant

  /** The VT that a server holds a reference to, if any. */
  function VtOf(s: Server): multiset<int> {
    if s.haveRef then multiset{s.vt} else multiset{}
  }

  /** The display number that an X server has not given back. */
  function NumberOf(s: Server): multiset<int> {
    if s.kind.X? && s.released == 0 then multiset{s.number} else multiset{}
  }

  function Total(f: Server -> multiset<int>, servers: seq<Server>): multiset<int> {
    if servers == [] then multiset{} else Total(f, servers[..|servers| - 1]) + f(servers[|servers| - 1])
  }

  lemma {:induction false} TotalUpdate(f: Server -> multiset<int>, servers: seq<Server>, i: nat, s: Server)
    requires i < |servers|
    ensures Total(f, servers[i := s]) + f(servers[i]) == Total(f, servers) + f(s)
    decreases |servers|
  {
    var n := |servers| - 1;
    if i < n {
      TotalUpdate(f, servers[..n], i, s);
      assert servers[i := s][..n] == servers[..n][i := s];
      Swap(Total(f, servers[..n][i := s]), f(servers[n]), f(servers[i]));
      Swap(Total(f, servers[..n]), f(servers[n]), f(s));
    } else {
      assert servers[i := s][..n] == servers[..n];
    }
  }

  lemma Swap(a: multiset<int>, b: multiset<int>, c: multiset<int>)
    ensures a + b + c == a + c + b
  {
  }

  /** What a changed record does to a total: nothing, add its part, or take away the part it had. */
  lemma TotalChange(f: Server -> multiset<int>, servers: seq<Server>, i: nat, s: Server)
    requires i < |servers|
    ensures f(s) == f(servers[i]) ==> Total(f, servers[i := s]) == Total(f, servers)
    ensures f(servers[i]) == multiset{} ==> Total(f, servers[i := s]) == Total(f, servers) + f(s)
    ensures f(s) == multiset{} ==> Total(f, servers[i := s]) == Total(f, servers) - f(servers[i])
  {
    hide Total;
    TotalUpdate(f, servers, i, s);
    Cancel(Total(f, servers[i := s]), f(servers[i]), Total(f, servers), f(s));
  }

  lemma Cancel(a: multiset<int>, b: multiset<int>, c: multiset<int>, d: multiset<int>)
    requires a + b == c + d
    ensures b == d ==> a == c
    ensures b == multiset{} ==> a == c + d
    ensures d == multiset{} ==> a == c - b
  {
    assert forall x :: a[x] + b[x] == (a + b)[x] && (c + d)[x] == c[x] + d[x];
  }

  lemma TotalSnoc(f: Server -> multiset<int>, servers: seq<Server>, s: Server)
    ensures Total(f, servers + [s]) == Total(f, servers) + f(s)
  {
    assert (servers + [s])[..|servers|] == servers;
  }

  lemma {:induction false} TotalHas(f: Server -> multiset<int>, servers: seq<Server>, i: nat)
    requires i < |servers|
    ensures f(servers[i]) <= Total(f, servers)
    decreases |servers|
  {
    var n := |servers| - 1;
    if i < n {
      TotalHas(f, servers[..n], i);
    }
  }

  lemma {:induction false} TotalHasBoth(f: Server -> multiset<int>, servers: seq<Server>, i: nat, j: nat)
    requires i < j < |servers|
    ensures f(servers[i]) + f(servers[j]) <= Total(f, servers)
    decreases |servers|
  {
    var n := |servers| - 1;
    if j < n {
      TotalHasBoth(f, servers[..n], i, j);
    } else {
      TotalHas(f, servers[..n], i);
    }
  }

  predicate SoundServer(s: Server) {
    && (s.haveRef ==> s.vt > 0 && !s.dead && !s.phase.Ended?)
    && s.released <= 1 && (s.released == 1 ==> s.kind.X? && s.phase.Ended?)
    && (s.kind.X? && s.phase.Ended? ==> s.released == 1)
  }

  /** A list of numbers is exactly what the servers hold, each number once. */
  ghost predicate Match(f: Server -> multiset<int>, xs: seq<int>, servers: seq<Server>) {
    multiset(xs) == Total(f, servers) && Distinct(xs)
  }

  predicate SoundServers(servers: seq<Server>) {
    forall i :: 0 <= i < |servers| ==> SoundServer(servers[i])
  }

  ghost predicate SplashFine(h: Host) {
    && (h.used != [] ==> h.splash.pinged && !SplashOn(h))
    && (forall i :: 0 <= i < |h.splashTaken| ==> h.splashTaken[i] == [])
  }

  ghost predicate Inv(h: Host) {
    Match(VtOf, h.used, h.servers) && Match(NumberOf, h.numbers, h.servers) && SoundServers(h.servers) && SplashFine(h)
  }

  lemma MatchSame(f: Server -> multiset<int>, xs: seq<int>, servers: seq<Server>, i: nat, s: Server)
    requires Match(f, xs, servers) && i < |servers| && f(s) == f(servers[i])
    ensures Match(f, xs, servers[i := s])
  {
    hide Total;
    TotalChange(f, servers, i, s);
  }

  lemma MatchDrop(f: Server -> multiset<int>, xs: seq<int>, servers: seq<Server>, i: nat, s: Server, x: int)
    requires Match(f, xs, servers) && i < |servers| && f(servers[i]) == multiset{x} && f(s) == multiset{}
    ensures Match(f, Without(xs, x), servers[i := s])
  {
    hide Total;
    TotalChange(f, servers, i, s);
    WithoutMultiset(xs, x);
    WithoutFacts(xs, x);
  }

  lemma MatchAdd(f: Server -> multiset<int>, xs: seq<int>, servers: seq<Server>, i: nat, s: Server, x: int)
    requires Match(f, xs, servers) && i < |servers| && f(servers[i]) == multiset{} && f(s) == multiset{x} && x !in xs
    ensures Match(f, xs + [x], servers[i := s])
  {
    hide Total;
    TotalChange(f, servers, i, s);
    DistinctSnoc(xs, x);
  }

  lemma MatchSnoc(f: Server -> multiset<int>, xs: seq<int>, servers: seq<Server>, s: Server)
    requires Match(f, xs, servers)
    ensures f(s) == multiset{} ==> Match(f, xs, servers + [s])
    ensures forall x :: f(s) == multiset{x} && x !in xs ==> Match(f, xs + [x], servers + [s])
  {
    hide Total;
    TotalSnoc(f, servers, s);
    forall x | f(s) == multiset{x} && x !in xs ensures Match(f, xs + [x], servers + [s]) {
      DistinctSnoc(xs, x);
    }
  }

  lemma {:induction false} DistinctOnce(xs: seq<int>, x: int)
    requires Distinct(xs)
    ensures multiset(xs)[x] <= 1
    decreases |xs|
  {
    if xs != [] {
      assert xs == [xs[0]] + xs[1..];
      DistinctOnce(xs[1..], x);
    }
  }

  lemma DropVtInv(h: Host, i: nat)
    requires Inv(h) && i < |h.servers|
    ensures Inv(DropVt(h, i)) && |DropVt(h, i).servers| == |h.servers|
    ensures DropVt(h, i).servers[i] == h.servers[i].(haveRef := false)
  {
    hide Match;
    var s := h.servers[i];
    if s.haveRef {
      MatchDrop(VtOf, h.used, h.servers, i, s.(haveRef := false), s.vt);
      MatchSame(NumberOf, h.numbers, h.servers, i, s.(haveRef := false));
    }
  }

  lemma OnStoppedInv(h: Host, i: nat)
    requires Inv(h) && i < |h.servers| && !h.servers[i].phase.Ended?
    ensures Inv(OnStopped(h, i))
  {
    hide Match, Without, DropVt;
    DropVtInv(h, i);
    var t := DropVt(h, i);
    var s := t.servers[i];
    var q := if s.kind.X? then s.(phase := Ended, released := s.released + 1) else s.(phase := Ended);
    MatchSame(VtOf, t.used, t.servers, i, q);
    if s.kind.X? {
      MatchDrop(NumberOf, t.numbers, t.servers, i, q, s.number);
    } else {
      MatchSame(NumberOf, t.numbers, t.servers, i, q);
    }
  }

  lemma FinalizeInv(h: Host, i: nat)
    requires Inv(h) && i < |h.servers|
    ensures Inv(Finalize(h, i))
  {
    hide Match, DropVt;
    DropVtInv(h, i);
    var t := DropVt(h, i);
    MatchSame(VtOf, t.used, t.servers, i, t.servers[i].(dead := true));
    MatchSame(NumberOf, t.numbers, t.servers, i, t.servers[i].(dead := true));
  }

  lemma StartServerInv(h: Host, i: nat, ok: bool, early: bool)
    requires Inv(h) && i < |h.servers|
    ensures Inv(StartServer(h, i, ok, early))
  {
    hide Match, OnStopped;
    var s := h.servers[i];
    if s.phase.Made? {
      OnStoppedInv(h, i);
      var q := s.(phase := if ok then Running else Failed);
      MatchSame(VtOf, h.used, h.servers, i, q);
      MatchSame(NumberOf, h.numbers, h.servers, i, q);
    }
  }

  /** A compositor that does not start keeps its VT from everyone else until it is finalized. */
  lemma FailedCompositorKeepsVt(h: Host, i: nat, early: bool)
    requires Inv(h) && i < |h.servers| && h.servers[i].kind.Compositor? && h.servers[i].haveRef
    ensures var t := StartServer(h, i, false, early);
            && t.used == h.used && t.servers[i].haveRef && h.servers[i].vt in t.used && (t.root ==> Unused(t) != h.servers[i].vt)
    ensures var t := Finalize(StartServer(h, i, false, early), i);
            !t.servers[i].haveRef && h.servers[i].vt !in t.used
  {
    hide Total, Distinct;
    var t := StartServer(h, i, false, early);
    StartServerInv(h, i, false, early);
    TotalHas(VtOf, t.servers, i);
    assert h.servers[i].vt in multiset(t.used);
    LeastFreeFacts(t.used, MinVt(t));
    WithoutFacts(t.used, h.servers[i].vt);
  }

  /** The chosen VT is free, and after a choice the splash is off for good. */
  ghost predicate Good(h: Host, c: Chosen) {
    && Inv(c.host) && c.host.servers == h.servers && c.host.used == h.used && c.host.numbers == h.numbers
    && (c.vt > 0 ==> c.vt !in h.used && c.host.splash.pinged && !SplashOn(c.host))
  }

  lemma TakeSplashGood(h: Host, env: Env, deactivate: bool)
    requires Inv(h)
    ensures var c := TakeSplash(h, env, deactivate);
            Good(h, c) && c.host.splash.pinged && !SplashOn(c.host) && c.host.root == h.root && c.host.minimum == h.minimum
  {
    hide Match, SoundServers;
  }

  lemma ChoicesGood(h: Host, env: Env, seat0: bool)
    requires Inv(h)
    ensures Good(h, GetVt(h, env, seat0)) && Good(h, UnityVt(h, env))
  {
    hide TakeSplash, Inv, LeastFree;
    TakeSplashGood(h, env, true);
    TakeSplashGood(h, env, false);
    LeastFreeFacts(h.used, MinVt(h));
  }

  // What is chosen, by the minimum, the splash and the list alone.

  /** The boot splash is on the screen: it answered the first ping, and was neither told to quit nor to give way. */
  predicate SplashShows(h: Host, env: Env) {
    if h.splash.pinged then h.splash.running && h.splash.active else env.pings
  }

  /** It has a VT, which is asked once, and that VT is one that a seat may have. */
  predicate SplashVtFits(h: Host, env: Env) {
    (if h.splash.checkedVt then h.splash.hasVt else env.hasVt) && env.activeVt >= h.minimum && env.activeVt >= 1
  }

  /** The splash gives its VT exactly if it is shown on a VT not below the minimum, and is gone either way. */
  lemma SplashGivesWay(h: Host, env: Env, deactivate: bool)
    ensures var c := TakeSplash(h, env, deactivate);
            && c.vt == (if SplashShows(h, env) && SplashVtFits(h, env) then env.activeVt else -1)
            && !(c.host.splash.running && c.host.splash.active)
            && (c.vt > 0 <==> c.host.splashTaken == h.splashTaken + [h.used]) && (c.vt <= 0 <==> c.host.splashTaken == h.splashTaken)
            && (c.vt > 0 ==> if deactivate then c.host.splash.running && !c.host.splash.active else !c.host.splash.running)
            && (c.vt <= 0 && SplashShows(h, env) ==> !c.host.splash.running)
            && c.host.splash.pinged && (SplashShows(h, env) ==> c.host.splash.checkedVt)
            && (h.splash.checkedVt ==> c.host.splash.checkedVt && c.host.splash.hasVt == h.splash.hasVt)
            && (!h.splash.checkedVt && SplashShows(h, env) ==> c.host.splash.hasVt == env.hasVt)
            && (!SplashShows(h, env) ==> c.host.splash.checkedVt == h.splash.checkedVt)
            && c.host == h.(splash := c.host.splash, splashTaken := c.host.splashTaken)
  {
    assert |h.splashTaken + [h.used]| != |h.splashTaken|;
  }

  /**
    A local seat on seat0 is given the splash's VT if that can be had and otherwise, by root, the
    least free VT from the minimum on; off seat0 it is given none.
   */
  lemma GetVtIs(h: Host, env: Env, seat0: bool)
    ensures var vt := GetVt(h, env, seat0).vt;
            && (!seat0 ==> vt == -1 && GetVt(h, env, seat0).host == h)
            && (seat0 && SplashShows(h, env) && SplashVtFits(h, env) ==> vt == env.activeVt)
            && (seat0 && !(SplashShows(h, env) && SplashVtFits(h, env)) ==> ChosenFree(h, vt))
            && (seat0 && h.root ==> vt >= h.minimum && vt >= 1)
  {
    hide TakeSplash, LeastFree;
    SplashGivesWay(h, env, true);
    LeastFreeFacts(h.used, MinVt(h));
  }

  /** The least free VT from the minimum on; without root none. */
  ghost predicate ChosenFree(h: Host, vt: int) {
    if !h.root then vt == -1
    else vt >= 1 && vt >= h.minimum && vt !in h.used && forall k :: 1 <= k < vt && h.minimum <= k ==> k in h.used
  }

  /** The same for a Unity seat, which without multi-seat support runs on VT 0. */
  lemma UnityVtIs(h: Host, env: Env)
    ensures var vt := UnityVt(h, env).vt;
            && (SplashShows(h, env) && SplashVtFits(h, env) ==> vt == env.activeVt)
            && (!(SplashShows(h, env) && SplashVtFits(h, env)) ==> if env.multiSeat then ChosenFree(h, vt) else vt == 0)
            && (env.multiSeat && h.root ==> vt >= h.minimum && vt >= 1)
  {
    hide TakeSplash, LeastFree;
    SplashGivesWay(h, env, false);
    LeastFreeFacts(h.used, MinVt(h));
  }

  /** A splash that has quit is never shown again. */
  lemma QuitForGood(h: Host, env: Env)
    ensures !SplashShows(Quit(h), env) && Quit(h) == h.(splash := h.splash.(pinged := true, running := false))
  {
  }

  /** A server that is given another VT gives the one that it held back first. */
  lemma VtChanges(h: Host, i: nat, vt: int)
    requires i < |h.servers|
    ensures var s, t := h.servers[i], SetVt(h, i, vt);
            && t.servers == h.servers[i := s.(vt := vt, haveRef := vt > 0)]
            && multiset(t.used) == multiset(h.used) - (if s.haveRef then multiset{s.vt} else multiset{}) + (if vt > 0 then multiset{vt} else multiset{})
            && t == h.(used := t.used, servers := t.servers)
  {
    WithoutMultiset(h.used, h.servers[i].vt);
  }

  /** The least number from the configured one on that neither an X server of ours nor a lock file has. */
  ghost predicate LeastNumber(h: Host, env: Env, n: int) {
    && n >= h.minimumDisplay && n !in h.numbers && n !in env.locked
    && forall k :: h.minimumDisplay <= k < n ==> k in h.numbers || k in env.locked
  }

  lemma NumberIsLeast(h: Host, env: Env)
    ensures LeastNumber(h, env, LeastFree(h.numbers + env.locked, h.minimumDisplay))
  {
    var taken := h.numbers + env.locked;
    LeastFreeFacts(taken, h.minimumDisplay);
    forall k | h.minimumDisplay <= k < LeastFree(taken, h.minimumDisplay) ensures k in h.numbers || k in env.locked {
      assert k in taken;
    }
  }

  /** What a local seat makes: a server that has not started, on the VT that was chosen and with a reference to it. */
  lemma MadeLocal(h: Host, kind: Kind, env: Env, seat0: bool)
    ensures var t := MakeLocal(h, kind, env, seat0);
            var vt := GetVt(h, env, seat0).vt;
            && |t.servers| == |h.servers| + 1 && t.servers[..|h.servers|] == h.servers
            && var s := t.servers[|h.servers|];
               && s.kind == kind && s.phase.Made? && !s.dead && s.released == 0
               && s.vt == (if vt >= 0 then vt else -1) && (s.haveRef <==> vt > 0)
               && t.used == (if vt > 0 then h.used + [vt] else h.used)
               && (if kind.X? then LeastNumber(h, env, s.number) && t.numbers == h.numbers + [s.number] else t.numbers == h.numbers)
  {
    hide LeastFree;
    NumberIsLeast(h, env);
    var a := AddServer(h, kind, env);
    SameChoice(h, a, env, seat0);
    var c := GetVt(a, env, seat0);
    SplashGivesWay(a, env, true);
    assert a.servers == h.servers + [a.servers[|h.servers|]];
  }

  lemma SameChoice(h: Host, a: Host, env: Env, seat0: bool)
    requires a == h.(servers := a.servers, numbers := a.numbers)
    ensures GetVt(a, env, seat0).vt == GetVt(h, env, seat0).vt
    ensures GetVt(a, env, seat0).host.servers == a.servers && GetVt(a, env, seat0).host.numbers == a.numbers
    ensures GetVt(a, env, seat0).host.used == a.used
  {
    hide LeastFree;
  }

  /** What a Unity seat makes: a compositor on its VT, or nothing if it has none. */
  lemma MadeUnity(h: Host, env: Env)
    ensures var t := MakeUnity(h, env);
            var vt := UnityVt(h, env).vt;
            && t.numbers == h.numbers
            && (vt < 0 ==> t.servers == h.servers && t.used == h.used)
            && (vt >= 0 ==>
                  && t.servers == h.servers + [Server(Compositor, vt, vt > 0, Made, false, 0, 0)]
                  && t.used == if vt > 0 then h.used + [vt] else h.used)
  {
    hide LeastFree;
    SplashGivesWay(h, env, false);
    var t := MakeUnity(h, env);
    if UnityVt(h, env).vt >= 0 {
      assert t.servers[..|h.servers|] == h.servers;
    }
  }

  /**
    A server that has stopped, a start that has failed and a finalized server: what each gives
    back, and that the others are left as they were.
   */
  lemma GivesBack(h: Host, i: nat, ok: bool, early: bool)
    requires Inv(h) && i < |h.servers|
    ensures var s, t := h.servers[i], OnStopped(h, i);
            && t.servers == h.servers[i := s.(haveRef := false, phase := Ended, released := if s.kind.X? then s.released + 1 else s.released)]
            && (s.haveRef ==> s.vt !in t.used && forall v :: v != s.vt ==> (v in t.used <==> v in h.used)) && (!s.haveRef ==> t.used == h.used)
            && (s.kind.X? && s.released == 0 ==> s.number !in t.numbers && forall n :: n != s.number ==> (n in t.numbers <==> n in h.numbers))
            && (!s.kind.X? ==> t.numbers == h.numbers)
    ensures var s, t := h.servers[i], Finalize(h, i);
            && t.servers == h.servers[i := s.(haveRef := false, dead := true)] && t.numbers == h.numbers
            && (s.haveRef ==> s.vt !in t.used && forall v :: v != s.vt ==> (v in t.used <==> v in h.used)) && (!s.haveRef ==> t.used == h.used)
    ensures var s, t := h.servers[i], StartServer(h, i, ok, early);
            var startable := !s.dead && s.phase.Made? && !s.kind.Wayland?;
            && (!startable ==> t == h)
            && (startable && ok ==> t == h.(servers := h.servers[i := s.(phase := Running)]))
            && (startable && !ok && s.kind.X? ==> t == OnStopped(h, i))
            && (startable && !ok && s.kind.Compositor? ==> t == if early then h else h.(servers := h.servers[i := s.(phase := Failed)]))
  {
    hide Total;
    var s := h.servers[i];
    WithoutFacts(h.used, s.vt);
    WithoutFacts(h.numbers, s.number);
    forall v | v != s.vt ensures v in Without(h.used, s.vt) <==> v in h.used {
      StillThere(h.used, s.vt, v);
    }
    forall n | n != s.number ensures n in Without(h.numbers, s.number) <==> n in h.numbers {
      StillThere(h.numbers, s.number, n);
    }
  }

  /**
    What happens to a server that exists happens to it, and to one that does not nothing: a process
    that stops ends the server that ran it, an object that is let go of is finalized once.
   */
  lemma EventsReach(h: Host, env: Env, i: nat, ok: bool, early: bool)
    ensures i >= |h.servers| ==> Next(h, env, Start(i, ok, early)) == h && Next(h, env, ProcessStops(i)) == h && Next(h, env, Finalizes(i)) == h
    ensures i < |h.servers| ==>
              && Next(h, env, Start(i, ok, early)) == StartServer(h, i, ok, early)
              && (h.servers[i].phase == Running && !h.servers[i].dead ==> Next(h, env, ProcessStops(i)) == OnStopped(h, i))
              && (h.servers[i].phase != Running || h.servers[i].dead ==> Next(h, env, ProcessStops(i)) == h)
              && (!h.servers[i].dead ==> Next(h, env, Finalizes(i)) == Finalize(h, i)) && (h.servers[i].dead ==> Next(h, env, Finalizes(i)) == h)
    ensures Next(h, env, SplashQuits) == h.(splash := h.splash.(pinged := true, running := false))
    ensures forall kind, seat0 :: Next(h, env, Local(kind, seat0)) == MakeLocal(h, kind, env, seat0)
    ensures Next(h, env, Unity) == MakeUnity(h, env)
    ensures var t := Next(h, env, XmirServer);
            && t == h.(servers := t.servers, numbers := t.numbers) && t.servers[..|h.servers|] == h.servers && |t.servers| == |h.servers| + 1
            && t.servers[|h.servers|].kind == X && !t.servers[|h.servers|].haveRef && LeastNumber(h, env, t.servers[|h.servers|].number)
  {
    hide LeastFree, MakeLocal, MakeUnity, OnStopped, Finalize, StartServer;
    NumberIsLeast(h, env);
  }

  lemma StillThere(xs: seq<int>, x: int, y: int)
    requires x != y
    ensures y in Without(xs, x) <==> y in xs
  {
    if y in xs {
      WithoutOthers(xs, x, y);
    }
    WithoutIn(xs, x);
  }

  lemma AddServerInv(h: Host, kind: Kind, env: Env)
    requires Inv(h)
    ensures var t := AddServer(h, kind, env);
            Inv(t) && |t.servers| == |h.servers| + 1 && t.used == h.used && t.splash == h.splash
            && !t.servers[|h.servers|].haveRef && t.servers[|h.servers|].phase.Made? && !t.servers[|h.servers|].dead
  {
    hide Match, LeastFree;
    var number := LeastFree(h.numbers + env.locked, h.minimumDisplay);
    LeastFreeFacts(h.numbers + env.locked, h.minimumDisplay);
    var s := Server(kind, -1, false, Made, false, if kind.X? then number else 0, 0);
    MatchSnoc(VtOf, h.used, h.servers, s);
    MatchSnoc(NumberOf, h.numbers, h.servers, s);
    assert AddServer(h, kind, env).servers == h.servers + [s];
  }

  lemma SetVtInv(h: Host, i: nat, vt: int)
    requires Inv(h) && i < |h.servers| && !h.servers[i].haveRef && h.servers[i].phase.Made? && !h.servers[i].dead
    requires vt > 0 ==> vt !in h.used && h.splash.pinged && !SplashOn(h)
    ensures Inv(SetVt(h, i, vt))
  {
    hide Match;
    var s := h.servers[i].(vt := vt, haveRef := vt > 0);
    MatchSame(NumberOf, h.numbers, h.servers, i, s);
    if vt > 0 {
      MatchAdd(VtOf, h.used, h.servers, i, s, vt);
    } else {
      MatchSame(VtOf, h.used, h.servers, i, s);
    }
  }

  lemma MakeLocalInv(h: Host, kind: Kind, env: Env, seat0: bool)
    requires Inv(h)
    ensures Inv(MakeLocal(h, kind, env, seat0))
  {
    hide Inv, AddServer, GetVt, SetVt;
    var a := AddServer(h, kind, env);
    AddServerInv(h, kind, env);
    ChoicesGood(a, env, seat0);
    var c := GetVt(a, env, seat0);
    if c.vt >= 0 {
      SetVtInv(c.host, |h.servers|, c.vt);
    }
  }

  lemma MakeUnityInv(h: Host, env: Env)
    requires Inv(h)
    ensures Inv(MakeUnity(h, env))
  {
    hide Inv, AddServer, UnityVt, SetVt;
    ChoicesGood(h, env, true);
    var c := UnityVt(h, env);
    if c.vt >= 0 {
      AddServerInv(c.host, Compositor, env);
      SetVtInv(AddServer(c.host, Compositor, env), |h.servers|, c.vt);
    }
  }

  lemma QuitInv(h: Host)
    requires Inv(h)
    ensures Inv(Quit(h))
  {
    hide Match, SoundServers;
  }

  lemma NextInv(h: Host, env: Env, e: Event)
    requires Inv(h)
    ensures Inv(Next(h, env, e))
  {
    hide Inv, MakeLocal, MakeUnity, AddServer, StartServer, OnStopped, Finalize, Quit;
    match e {
      case Local(kind, seat0) => MakeLocalInv(h, kind, env, seat0);
      case XmirServer => AddServerInv(h, X, env);
      case Unity => MakeUnityInv(h, env);
      case Start(i, ok, early) =>
        if i < |h.servers| {
          StartServerInv(h, i, ok, early);
        }
      case ProcessStops(i) =>
        if i < |h.servers| && h.servers[i].phase.Running? {
          OnStoppedInv(h, i);
        }
      case Finalizes(i) =>
        if i < |h.servers| {
          FinalizeInv(h, i);
        }
      case SplashQuits => QuitInv(h);
    }
  }

  lemma {:induction false} RunInv(h: Host, hs: seq<Happening>)
    requires Inv(h)
    ensures Inv(Run(h, hs))
    decreases |hs|
  {
    hide Inv, Next;
    if hs != [] {
      NextInv(h, hs[0].env, hs[0].event);
      RunInv(Next(h, hs[0].env, hs[0].event), hs[1..]);
    }
  }

  /**
    In every run: the used-VT list is the multiset of the VTs of servers with a reference, no
    two servers hold the same VT and none whose `stopped_cb` has run or that was finalized holds one; X servers
    that have not given back their display number have distinct ones, each given back at most
    once; and the splash's VT was only ever taken while no VT was in use.
   */
  lemma NoSharing(root: bool, minimum: int, minimumDisplay: int, hs: seq<Happening>)
    ensures var h := Run(Initial(root, minimum, minimumDisplay), hs);
            && multiset(h.used) == Total(VtOf, h.servers)
            && multiset(h.numbers) == Total(NumberOf, h.servers)
            && (forall i, j :: 0 <= i < j < |h.servers| && h.servers[i].haveRef && h.servers[j].haveRef ==> h.servers[i].vt != h.servers[j].vt)
            && (forall i :: 0 <= i < |h.servers| && h.servers[i].haveRef ==> h.servers[i].vt > 0 && !h.servers[i].dead && !h.servers[i].phase.Ended?)
            && (forall i, j :: 0 <= i < j < |h.servers| && Unreleased(h.servers[i]) && Unreleased(h.servers[j]) ==> h.servers[i].number != h.servers[j].number)
            && (forall i :: 0 <= i < |h.servers| ==> h.servers[i].released <= 1)
            && (forall i :: 0 <= i < |h.splashTaken| ==> h.splashTaken[i] == [])
  {
    var h := Run(Initial(root, minimum, minimumDisplay), hs);
    assert Inv(Initial(root, minimum, minimumDisplay));
    RunInv(Initial(root, minimum, minimumDisplay), hs);
    hide Run, Total, Initial;
    forall i, j | 0 <= i < j < |h.servers| && h.servers[i].haveRef && h.servers[j].haveRef ensures h.servers[i].vt != h.servers[j].vt {
      TotalHasBoth(VtOf, h.servers, i, j);
      DistinctOnce(h.used, h.servers[i].vt);
    }
    forall i, j | 0 <= i < j < |h.servers| && Unreleased(h.servers[i]) && Unreleased(h.servers[j])
      ensures h.servers[i].number != h.servers[j].number
    {
      TotalHasBoth(NumberOf, h.servers, i, j);
      DistinctOnce(h.numbers, h.servers[i].number);
    }
  }

  predicate Unreleased(s: Server) {
    s.kind.X? && s.released == 0
  }

  // ------------------------------------------------------------------ the programs

  /** The static lists of src/vt.c and src/x-server-local.c, with the fields of the servers that use them. */
  class Tables {
    const root: bool
    const minimum: int
    const minimumDisplay: int
    var used: seq<int>
    var numbers: seq<int>
    var servers: seq<Server>
    var splash: Splash
    var splashTaken: seq<seq<int>>

    ghost function View(): Host
      reads this
    {
      Host(root, minimum, minimumDisplay, used, numbers, servers, splash, splashTaken)
    }

    constructor (root: bool, minimum: int, minimumDisplay: int)
      ensures View() == Initial(root, minimum, minimumDisplay)
    {
      this.root, this.minimum, this.minimumDisplay := root, minimum, minimumDisplay;
      used, numbers, servers, splashTaken := [], [], [], [];
      splash := Splash(false, false, false, false, false);
    }

    static method IsIn(xs: seq<int>, n: int) returns (r: bool)
      ensures r == (n in xs)
    {
      for i := 0 to |xs|
        invariant n !in xs[..i]
      {
        if xs[i] == n {
          return true;
        }
      }
      return false;
    }

    /** `vt_get_unused`: it ends, at the least free number from the minimum on. */
    method GetUnused() returns (number: int)
      ensures number == Unused(View())
      ensures root ==> MinVt(View()) <= number <= MinVt(View()) + |used| && number !in used
    {
      if !root {
        return -1;
      }
      var min := if minimum < 1 then 1 else minimum;
      LeastFreeFacts(used, min);
      number := min;
      var taken := IsIn(used, number);
      while taken
        invariant min <= number <= LeastFree(used, min) && taken == (number in used)
        invariant forall k :: min <= k < number ==> k in used
        decreases LeastFree(used, min) - number
      {
        number := number + 1;
        taken := IsIn(used, number);
      }
      LeastFreeOnly(used, min, number);
    }

    /** `x_server_local_get_unused_display_number`, lock files of unknown servers included. */
    method GetUnusedDisplayNumber(locked: seq<int>) returns (number: int)
      modifies `numbers
      ensures number == LeastFree(old(numbers) + locked, minimumDisplay)
      ensures numbers == old(numbers) + [number]
    {
      number := minimumDisplay;
      LeastFreeFacts(numbers + locked, minimumDisplay);
      var mine := IsIn(numbers, number);
      var theirs := IsIn(locked, number);
      while mine || theirs
        invariant numbers == old(numbers)
        invariant minimumDisplay <= number <= LeastFree(numbers + locked, minimumDisplay)
        invariant mine == (number in numbers) && theirs == (number in locked)
        invariant forall k :: minimumDisplay <= k < number ==> k in numbers + locked
        decreases LeastFree(numbers + locked, minimumDisplay) - number
      {
        number := number + 1;
        mine := IsIn(numbers, number);
        theirs := IsIn(locked, number);
      }
      LeastFreeOnly(numbers + locked, minimumDisplay, number);
      numbers := numbers + [number];
    }

    method SetServerVt(i: nat, vt: int)
      requires i < |servers|
      modifies this
      ensures View() == SetVt(old(View()), i, vt)
    {
      var s := servers[i];
      if s.haveRef {
        used := Remove(used, s.vt);
      }
      s := s.(haveRef := false, vt := vt);
      if vt > 0 {
        used := used + [vt];
        s := s.(haveRef := true);
      }
      servers := servers[i := s];
    }

    method DropServerVt(i: nat)
      requires i < |servers|
      modifies this
      ensures View() == DropVt(old(View()), i)
    {
      if servers[i].haveRef {
        used := Remove(used, servers[i].vt);
        servers := servers[i := servers[i].(haveRef := false)];
      }
    }

    method StoppedCb(i: nat)
      requires i < |servers|
      modifies this
      ensures View() == OnStopped(old(View()), i)
    {
      DropServerVt(i);
      if servers[i].kind.X? {
        numbers := Remove(numbers, servers[i].number);
        servers := servers[i := servers[i].(released := servers[i].released + 1)];
      }
      servers := servers[i := servers[i].(phase := Ended)];
    }

    method FinalizeServer(i: nat)
      requires i < |servers|
      modifies this
      ensures View() == Finalize(old(View()), i)
    {
      DropServerVt(i);
      servers := servers[i := servers[i].(dead := true)];
    }

    method StartProcess(i: nat, ok: bool, early: bool)
      requires i < |servers|
      modifies this
      ensures View() == StartServer(old(View()), i, ok, early)
    {
      hide OnStopped;
      var s := servers[i];
      if s.dead || !s.phase.Made? || s.kind.Wayland? {
        return;
      }
      if ok {
        servers := servers[i := s.(phase := Running)];
      } else if s.kind.X? {
        StoppedCb(i);
      } else if !early {
        servers := servers[i := s.(phase := Failed)];
      }
    }

    method SplashIsActive(env: Env) returns (r: bool)
      modifies `splash
      ensures View() == Ping(old(View()), env) && r == SplashOn(View())
    {
      if !splash.pinged {
        splash := splash.(pinged := true, running := env.pings, active := env.pings);
      }
      return splash.running && splash.active;
    }

    /** The first part of `get_vt`: the splash gives way, with its VT if that can be had. */
    method TakeSplashVt(env: Env) returns (vt: int)
      modifies `splash, `splashTaken
      ensures Chosen(View(), vt) == TakeSplash(old(View()), env, true)
    {
      vt := -1;
      var on := SplashIsActive(env);
      if on {
        if !splash.checkedVt {
          splash := splash.(checkedVt := true, hasVt := env.hasVt);
        }
        if splash.hasVt && env.activeVt >= (if minimum < 1 then 1 else minimum) {
          vt := env.activeVt;
          splash := splash.(active := false);
          splashTaken := splashTaken + [used];
        }
      }
      on := SplashIsActive(env);
      if on {
        splash := splash.(pinged := true, running := false);
      }
    }

    method GetServerVt(env: Env, seat0: bool) returns (vt: int)
      modifies `splash, `splashTaken
      ensures Chosen(View(), vt) == GetVt(old(View()), env, seat0)
    {
      hide TakeSplash, LeastFree;
      if !seat0 {
        return -1;
      }
      vt := TakeSplashVt(env);
      if vt < 0 {
        vt := GetUnused();
      }
    }
  }
}
