/**
  The library's list of user wrappers (liblightdm-gobject/user.c) beside the common user list
  that it mirrors (common/user-list.c), with AccountsService and with the password file.
  A wrapper is written as the common user that it wraps.
 */
module UserWrappers {
  import opened Octets
  import opened Lists
  import opened UserList

  /** `g_list_index`: -1 when absent. */
  function IndexOf(ids: seq<UserId>, x: UserId): (k: int)
    ensures -1 <= k < |ids|
    ensures k >= 0 ==> ids[k] == x
    ensures k < 0 <==> x !in ids
  {
    if ids == [] then -1 else if ids[0] == x then 0
    else var k := IndexOf(ids[1..], x); if k < 0 then -1 else k + 1
  }

  /** `g_list_insert`: at the end when the position is negative or past it. */
  function InsertAt(ids: seq<UserId>, x: UserId, k: int): seq<UserId> {
    if 0 <= k < |ids| then ids[..k] + [x] + ids[k..] else ids + [x]
  }

  lemma {:induction false} IndexAt(ids: seq<UserId>, k: nat)
    requires k < |ids| && Distinct(ids)
    ensures IndexOf(ids, ids[k]) == k
    decreases |ids|
  {
    if k > 0 {
      assert ids[1..][k - 1] == ids[k] && Distinct(ids[1..]);
      IndexAt(ids[1..], k - 1);
    }
  }

  // ------------------------------------------------------------------ AccountsService

  datatype Signal = WrapperAdded(user: UserId) | WrapperChanged(wrapper: Option<UserId>) | WrapperRemoved(user: UserId)

  datatype State = State(
    objects: seq<User>,
    paths: seq<Text>,          // the object path of each user
    users: seq<UserId>,        // the common list
    wrappers: seq<UserId>,     // lightdm_list
    initialized: bool,
    signals: seq<Signal>)

  datatype Event =
    | Initialize
    | UserAdded(path: Text, user: User, system: bool)
    | UserDeleted(path: Text)
    | UserChanged(id: UserId, user: User, system: bool)

  /** `get_user_by_path`. */
  function ByPath(s: State, ids: seq<UserId>, path: Text): (r: Option<UserId>)
    ensures r.Some? ==> r.value in ids
  {
    if ids == [] then None
    else if ids[0] < |s.paths| && s.paths[ids[0]] == path then Some(ids[0])
    else ByPath(s, ids[1..], path)
  }

  /** The wrapper at the position of a common user, if there is one. */
  function WrapperOf(s: State, x: UserId): Option<UserId> {
    var k := IndexOf(s.users, x);
    if 0 <= k < |s.wrappers| then Some(s.wrappers[k]) else None
  }

  function OnAdded(s: State, path: Text, user: User, system: bool): State {
    if ByPath(s, s.users, path).Some? then s
    else
      var x := |s.objects|;
      var t := s.(objects := s.objects + [user], paths := s.paths + [path]);
      if system then t
      else
        var users := InsertSorted(t.objects, t.users, x);
        if !s.initialized then t.(users := users)
        else t.(users := users, wrappers := InsertAt(t.wrappers, x, IndexOf(users, x)), signals := t.signals + [WrapperAdded(x)])
  }

  function OnDeleted(s: State, path: Text): State {
    var known := ByPath(s, s.users, path);
    if known.None? then s
    else
      var x := known.value;
      var t := s.(users := Without(s.users, x));
      if s.initialized && x in s.wrappers
      then t.(wrappers := Without(s.wrappers, x), signals := s.signals + [WrapperRemoved(x)]) else t
  }

  /** The properties change where they are; the list is not sorted again. */
  function OnChanged(s: State, x: UserId, user: User, system: bool): State {
    if x >= |s.objects| then s
    else
      var t := s.(objects := s.objects[x := user]);
      if system || !s.initialized then t else t.(signals := s.signals + [WrapperChanged(WrapperOf(s, x))])
  }

  function Next(s: State, e: Event): State {
    match e
    case Initialize => if s.initialized then s else s.(wrappers := s.users, initialized := true)
    case UserAdded(path, user, system) => OnAdded(s, path, user, system)
    case UserDeleted(path) => OnDeleted(s, path)
    case UserChanged(x, user, system) => OnChanged(s, x, user, system)
  }

  function Run(s: State, es: seq<Event>): (t: State)
    decreases |es|
  {
    if es == [] then s else Run(Next(s, es[0]), es[1..])
  }

  const START := State([], [], [], [], false, [])

  ghost predicate Agree(s: State) {
    && Distinct(s.users) && Within(s.objects, s.users) && |s.paths| == |s.objects|
    && (s.initialized ==> s.wrappers == s.users)
  }

  lemma AddedAgree(s: State, path: Text, user: User, system: bool)
    requires Agree(s)
    ensures Agree(OnAdded(s, path, user, system))
  {
    hide Before, ByPath;
    var x := |s.objects|;
    var objects := s.objects + [user];
    var k := Place(objects, s.users, x);
    var users := InsertSorted(objects, s.users, x);
    InsertSortedFacts(objects, s.users, x);
    assert users[k] == x;
    IndexAt(users, k);
    assert InsertAt(s.users, x, k) == users;
  }

  /** Every event keeps the two lists equal position by position, and a change names the right wrapper. */
  lemma NextAgree(s: State, e: Event)
    requires Agree(s)
    ensures Agree(Next(s, e))
    ensures s.initialized && e.UserChanged? && e.id in s.users && !e.system ==>
              Next(s, e).signals == s.signals + [WrapperChanged(Some(e.id))]
  {
    hide OnAdded;
    match e {
      case Initialize =>
      case UserAdded(path, user, system) => AddedAgree(s, path, user, system);
      case UserDeleted(path) =>
        var known := ByPath(s, s.users, path);
        if known.Some? {
          WithoutFacts(s.users, known.value);
        }
      case UserChanged(x, user, system) =>
    }
  }

  /** Where an element goes: to its place, or to the end if that is no place. */
  lemma InsertAtIs(ids: seq<UserId>, x: UserId, k: int)
    ensures 0 <= k <= |ids| ==> InsertAt(ids, x, k) == ids[..k] + [x] + ids[k..]
    ensures k < 0 || k > |ids| ==> InsertAt(ids, x, k) == ids + [x]
  {
  }

  /** The user of an object path, if one is listed. */
  predicate HasPath(s: State, x: UserId, path: Text) {
    x in s.users && x < |s.paths| && s.paths[x] == path
  }

  lemma {:induction false} ByPathIs(s: State, ids: seq<UserId>, path: Text)
    ensures var r := ByPath(s, ids, path);
            if r.Some? then r.value in ids && r.value < |s.paths| && s.paths[r.value] == path
            else forall x <- ids :: !(x < |s.paths| && s.paths[x] == path)
    decreases |ids|
  {
    if ids != [] {
      ByPathIs(s, ids[1..], path);
      assert ids == [ids[0]] + ids[1..];
    }
  }

  /**
    A user that AccountsService adds is listed in display order, wrapped and announced, unless its
    path is known already or it is a system account; before the list was asked for nothing is said.
   */
  lemma AddedIs(s: State, path: Text, user: User, system: bool)
    requires Agree(s)
    ensures var x, t := |s.objects|, Next(s, UserAdded(path, user, system));
            && ((exists y :: HasPath(s, y, path)) ==> t == s)
            && (!(exists y :: HasPath(s, y, path)) ==>
                  && t.objects == s.objects + [user] && t.paths == s.paths + [path] && t.initialized == s.initialized
                  && (system ==> t.users == s.users && t.wrappers == s.wrappers && t.signals == s.signals)
                  && (!system ==>
                        && (forall y :: y in t.users <==> y in s.users || y == x) && |t.users| == |s.users| + 1
                        && t.signals == (if s.initialized then s.signals + [WrapperAdded(x)] else s.signals)
                        && (if s.initialized then t.wrappers == t.users else t.wrappers == s.wrappers)))
  {
    hide InsertSorted, Distinct, ByPath;
    ByPathIs(s, s.users, path);
    var x, t := |s.objects|, Next(s, UserAdded(path, user, system));
    AddedAgree(s, path, user, system);
    InsertSortedFacts(s.objects + [user], s.users, x);
    var known := ByPath(s, s.users, path);
    if known.Some? {
      assert HasPath(s, known.value, path);
    }
  }

  /** A user that is added is put in its place, so a list in display order stays so. */
  lemma AddedInOrder(s: State, path: Text, user: User, system: bool)
    requires Agree(s) && InDisplayOrder(s.objects, s.users)
    ensures var t := Next(s, UserAdded(path, user, system)); InDisplayOrder(t.objects, t.users)
  {
    hide InsertSorted, InDisplayOrder, Distinct, ByPath;
    var x := |s.objects|;
    InsertSortedFacts(s.objects + [user], s.users, x);
    SortedDisplays(s.objects + [user], s.users) by {
      DisplaysSorted(s.objects, s.users);
      SortedMore(s.objects, user, s.users);
    }
    if InDisplayOrder(s.objects, s.users) {
      DisplaysSorted(s.objects, s.users);
      SortedMore(s.objects, user, s.users);
      SortedDisplays(s.objects + [user], InsertSorted(s.objects + [user], s.users, x));
    }
  }

  lemma SortedMore(objects: seq<User>, user: User, ids: seq<UserId>)
    requires Sorted(objects, ids) && Within(objects, ids)
    ensures Sorted(objects + [user], ids)
  {
    hide Leq;
    forall i, j | 0 <= i < j < |ids| ensures Before(objects + [user], ids[i], ids[j]) {
      assert Before(objects, ids[i], ids[j]) && ids[i] in ids && ids[j] in ids;
    }
  }

  lemma DisplaysSorted(objects: seq<User>, ids: seq<UserId>)
    requires InDisplayOrder(objects, ids)
    ensures Sorted(objects, ids)
  {
    hide Leq;
  }

  /** A listed user whose path is deleted leaves both lists and is announced as removed; any other path changes nothing. */
  lemma DeletedIs(s: State, path: Text)
    requires Agree(s)
    ensures var t := Next(s, UserDeleted(path));
            && ((forall y :: !HasPath(s, y, path)) ==> t == s)
            && ((exists y :: HasPath(s, y, path)) ==>
                  exists x :: HasPath(s, x, path) && t.users == Without(s.users, x) && t.objects == s.objects && t.paths == s.paths
                    && (if s.initialized then t.wrappers == t.users && t.signals == s.signals + [WrapperRemoved(x)]
                        else t.wrappers == s.wrappers && t.signals == s.signals))
  {
    hide Distinct, ByPath, Without;
    ByPathIs(s, s.users, path);
    var known := ByPath(s, s.users, path);
    if known.Some? {
      assert HasPath(s, known.value, path);
    }
  }

  /** A change replaces the properties and moves nobody; the library is told unless it is a system account or nobody asked yet. */
  lemma ChangedIs(s: State, x: UserId, user: User, system: bool)
    requires Agree(s) && x in s.users
    ensures var t := Next(s, UserChanged(x, user, system));
            t == s.(objects := s.objects[x := user],
                    signals := if system || !s.initialized then s.signals else s.signals + [WrapperChanged(Some(x))])
  {
  }

  /** Asking for the list wraps every user in order, once. */
  lemma InitializedIs(s: State)
    requires Agree(s)
    ensures Next(s, Initialize) == s.(wrappers := s.users, initialized := true)
  {
  }

  lemma {:induction false} RunAgree(s: State, es: seq<Event>)
    requires Agree(s)
    ensures Agree(Run(s, es))
    decreases |es|
  {
    hide Agree, Next;
    if es != [] {
      NextAgree(s, es[0]);
      RunAgree(Next(s, es[0]), es[1..]);
    }
  }

  /** After every run of AccountsService events the wrapper list is the common list. */
  lemma WrappersMirror(es: seq<Event>)
    ensures var s := Run(START, es); s.initialized ==> s.wrappers == s.users
  {
    RunAgree(START, es);
  }

  /** The library's list object, with its three callbacks. */
  class LightDMUserList {
    var wrappers: seq<UserId>
    var signals: seq<Signal>

    /** `initialize_user_list_if_needed`: prepended one by one, then reversed. */
    constructor (users: seq<UserId>)
      ensures wrappers == users && signals == []
    {
      var list: seq<UserId> := [];
      for i := 0 to |users|
        invariant |list| == i && forall j :: 0 <= j < i ==> list[j] == users[i - 1 - j]
      {
        list := [users[i]] + list;
      }
      wrappers := seq(|list|, i requires 0 <= i < |list| => list[|list| - 1 - i]);
      signals := [];
    }

    method AddedCb(users: seq<UserId>, x: UserId)
      modifies this
      ensures wrappers == InsertAt(old(wrappers), x, IndexOf(users, x)) && signals == old(signals) + [WrapperAdded(x)]
    {
      var k := IndexOf(users, x);
      wrappers := if 0 <= k < |wrappers| then wrappers[..k] + [x] + wrappers[k..] else wrappers + [x];
      signals := signals + [WrapperAdded(x)];
    }

    method ChangedCb(users: seq<UserId>, x: UserId)
      modifies `signals
      ensures users == wrappers && x in users ==> signals == old(signals) + [WrapperChanged(Some(x))]
    {
      var k := IndexOf(users, x);
      signals := signals + [WrapperChanged(if 0 <= k < |wrappers| then Some(wrappers[k]) else None)];
    }

    method RemovedCb(x: UserId)
      modifies this
      ensures wrappers == Without(old(wrappers), x)
      ensures signals == if x in old(wrappers) then old(signals) + [WrapperRemoved(x)] else old(signals)
    {
      if x in wrappers {
        signals := signals + [WrapperRemoved(x)];
      }
      wrappers := Remove(wrappers, x);
    }
  }

  // ------------------------------------------------------------------ the password file

  function AllAdded(wrappers: seq<UserId>, users: seq<UserId>, added: seq<UserId>): seq<UserId>
    decreases |added|
  {
    if added == [] then wrappers else AllAdded(InsertAt(wrappers, added[0], IndexOf(users, added[0])), users, added[1..])
  }

  function AllRemoved(wrappers: seq<UserId>, removed: seq<UserId>): seq<UserId>
    decreases |removed|
  {
    if removed == [] then wrappers else AllRemoved(Without(wrappers, removed[0]), removed[1..])
  }

  lemma InsertAtFacts(ids: seq<UserId>, x: UserId, k: int)
    ensures forall y :: y in InsertAt(ids, x, k) <==> y in ids || y == x
    ensures Distinct(ids) && x !in ids ==> Distinct(InsertAt(ids, x, k))
  {
    if 0 <= k < |ids| {
      var t := InsertAt(ids, x, k);
      assert t[k] == x && ids == ids[..k] + ids[k..];
      forall y | y in ids ensures y in t {
        var i :| 0 <= i < |ids| && ids[i] == y;
        assert t[if i < k then i else i + 1] == y;
      }
    }
  }

  lemma {:induction false} AllAddedFacts(wrappers: seq<UserId>, users: seq<UserId>, added: seq<UserId>)
    requires Distinct(wrappers) && Distinct(added) && forall x <- added :: x !in wrappers
    ensures var w := AllAdded(wrappers, users, added);
            Distinct(w) && forall y :: y in w <==> y in wrappers || y in added
    decreases |added|
  {
    if added != [] {
      var x := added[0];
      var next := InsertAt(wrappers, x, IndexOf(users, x));
      InsertAtFacts(wrappers, x, IndexOf(users, x));
      assert added == [x] + added[1..] && x !in added[1..] && Distinct(added[1..]);
      AllAddedFacts(next, users, added[1..]);
    }
  }

  lemma {:induction false} AllRemovedFacts(wrappers: seq<UserId>, removed: seq<UserId>)
    requires Distinct(wrappers)
    ensures var w := AllRemoved(wrappers, removed);
            Distinct(w) && forall y :: y in w <==> y in wrappers && y !in removed
    decreases |removed|
  {
    if removed != [] {
      WithoutFacts(wrappers, removed[0]);
      AllRemovedFacts(Without(wrappers, removed[0]), removed[1..]);
      assert removed == [removed[0]] + removed[1..];
    }
  }

  /** After a whole reload of the password file the two lists hold the same users. */
  lemma ReloadSameSet(objects: seq<User>, before: seq<UserId>, es: seq<Entry>, l: Loaded, wrappers: seq<UserId>)
    requires Faithful(objects, before, true, es, l) && Within(objects, before)
    requires Distinct(wrappers) && forall x :: x in wrappers <==> x in before
    ensures var w := AllRemoved(AllAdded(wrappers, l.users, l.added), Apart(before, l.users));
            Distinct(w) && forall x :: x in w <==> x in l.users
  {
    forall x <- l.added ensures x !in wrappers {
      assert x in l.users && x >= |objects|;
    }
    AllAddedFacts(wrappers, l.users, l.added);
    ApartFacts(before, l.users);
    AllRemovedFacts(AllAdded(wrappers, l.users, l.added), Apart(before, l.users));
    forall x <- l.users ensures x in before || x in l.added {
      var e :| e in es && Stands(objects, before, l, x, e);
    }
  }

  // ------------------------------------------------------------------ when a reload keeps positions

  /** What the additions leave, walking through the new list: each new user goes where it stands there. */
  function Placed(before: seq<UserId>, users: seq<UserId>): seq<UserId> {
    if users == [] then before
    else
      var n := |users| - 1;
      if users[n] in before then Placed(before, users[..n]) else InsertAt(Placed(before, users[..n]), users[n], n)
  }

  lemma {:induction false} AllAddedSnoc(wrappers: seq<UserId>, users: seq<UserId>, added: seq<UserId>, x: UserId)
    ensures AllAdded(wrappers, users, added + [x]) == InsertAt(AllAdded(wrappers, users, added), x, IndexOf(users, x))
    decreases |added|
  {
    hide InsertAt, IndexOf;
    if added == [] {
      assert added + [x] == [x] && [x][1..] == [];
    } else {
      assert (added + [x])[1..] == added[1..] + [x];
      AllAddedSnoc(InsertAt(wrappers, added[0], IndexOf(users, added[0])), users, added[1..], x);
    }
  }

  lemma {:induction false} AddedPrefix(before: seq<UserId>, users: seq<UserId>, n: nat)
    requires Distinct(users) && n <= |users|
    ensures AllAdded(before, users, Apart(users[..n], before)) == Placed(before, users[..n])
    decreases n
  {
    hide InsertAt, IndexOf, Apart, AllAdded;
    if n == 0 {
      NothingAdded(before, users);
    } else {
      var v, u := users[..n - 1], users[n - 1];
      assert users[..n] == v + [u] && users[..n][..n - 1] == v;
      AddedPrefix(before, users, n - 1);
      ApartAppend(v, [u], before);
      OneOf(u, before);
      assert Apart(v, before) + [] == Apart(v, before);
      AllAddedSnoc(before, users, Apart(v, before), u);
      IndexAt(users, n - 1);
    }
  }

  lemma NothingAdded(before: seq<UserId>, users: seq<UserId>)
    ensures users[..0] == [] && Apart<UserId>([], before) == [] && AllAdded(before, users, []) == before && Placed(before, []) == before
  {
  }

  lemma {:induction false} WithoutApart(w: seq<UserId>, g: UserId, gone: seq<UserId>)
    requires Distinct(w)
    ensures Apart(Without(w, g), gone) == Apart(w, [g] + gone)
    decreases |w|
  {
    if w != [] {
      assert Distinct(w[1..]) && w[0] !in w[1..] by {
        assert forall i :: 0 <= i < |w| - 1 ==> w[1..][i] == w[i + 1];
      }
      if w[0] == g {
        ApartOther(w[1..], g, gone);
      } else {
        WithoutApart(w[1..], g, gone);
        assert ([w[0]] + Without(w[1..], g))[1..] == Without(w[1..], g);
      }
    }
  }

  lemma {:induction false} ApartOther(w: seq<UserId>, g: UserId, gone: seq<UserId>)
    requires g !in w
    ensures Apart(w, gone) == Apart(w, [g] + gone)
    decreases |w|
  {
    if w != [] {
      assert w[0] in w;
      ApartOther(w[1..], g, gone);
    }
  }

  lemma {:induction false} AllRemovedIs(w: seq<UserId>, gone: seq<UserId>)
    requires Distinct(w)
    ensures AllRemoved(w, gone) == Apart(w, gone)
    decreases |gone|
  {
    if gone == [] {
      NobodyApart(w);
    } else {
      WithoutFacts(w, gone[0]);
      AllRemovedIs(Without(w, gone[0]), gone[1..]);
      WithoutApart(w, gone[0], gone[1..]);
      assert [gone[0]] + gone[1..] == gone;
    }
  }

  lemma {:induction false} NobodyApart(w: seq<UserId>)
    ensures Apart(w, []) == w
    decreases |w|
  {
    if w != [] {
      NobodyApart(w[1..]);
      assert w == [w[0]] + w[1..];
    }
  }

  /** Of users that are old or listed, those not removed are those listed. */
  lemma {:induction false} NotRemoved(w: seq<UserId>, before: seq<UserId>, users: seq<UserId>)
    requires forall x <- w :: x in before || x in users
    ensures Apart(w, Apart(before, users)) == Common(w, users)
    decreases |w|
  {
    if w != [] {
      assert w[0] in w;
      ApartFacts(before, users);
      NotRemoved(w[1..], before, users);
    }
  }

  /** The new list up to its last new user. */
  function Front(users: seq<UserId>, before: seq<UserId>): (v: seq<UserId>)
    ensures v <= users && (forall x <- users[|v|..] :: x in before)
    ensures v != [] ==> v[|v| - 1] !in before
    ensures Placed(before, users) == Placed(before, v)
  {
    if users == [] then []
    else if users[|users| - 1] in before then
      var v := Front(users[..|users| - 1], before);
      assert users[|v|..] == users[..|users| - 1][|v|..] + [users[|users| - 1]];
      v
    else users
  }

  /** If the kept users head the old list in order, the additions build the new list before the rest. */
  lemma {:induction false} Straight(before: seq<UserId>, v: seq<UserId>, q: seq<UserId>)
    requires before == Common(v, before) + q
    ensures Placed(before, v) == v + q
    decreases |v|
  {
    hide Common;
    if v == [] {
      assert Common(v, before) == [] by { CommonFacts(v, before); }
      assert before == q && v + q == q;
    } else {
      var n := |v| - 1;
      var u := v[n];
      assert v == v[..n] + [u];
      CommonAppend(v[..n], [u], before);
      OneOf(u, before);
      if u in before {
        assert before == Common(v[..n], before) + ([u] + q);
        Straight(before, v[..n], [u] + q);
        assert v[..n] + ([u] + q) == v + q;
      } else {
        assert Common(v[..n], before) + [] == Common(v[..n], before);
        Straight(before, v[..n], q);
        assert InsertAt(v[..n] + q, u, n) == v[..n] + [u] + q;
      }
    }
  }

  /**
    A reload keeps positions: the kept users stand in the same order as before, and no removed
    user stood ahead of a kept one that is now ahead of a new one.
   */
  ghost predicate InPlace(before: seq<UserId>, users: seq<UserId>) {
    && Common(users, before) == Common(before, users)
    && forall i, j :: 0 <= i < j < |before| && before[j] in Front(users, before) ==> before[i] in users
  }

  /** Up to a user that is now ahead of a new one nobody was removed. */
  lemma AllKeptUpTo(before: seq<UserId>, users: seq<UserId>, j: nat)
    requires InPlace(before, users) && j < |before| && before[j] in Front(users, before)
    ensures Common(before, users) == before[..j + 1] + Common(before[j + 1..], users)
  {
    hide Common, Front, Distinct;
    var p := before[..j + 1];
    forall x <- p ensures x in users {
      var i :| 0 <= i < |p| && p[i] == x;
      assert before[i] == x;
      InFront(users, before);
    }
    assert before == p + before[j + 1..];
    CommonAppend(p, before[j + 1..], users);
    CommonFacts(p, users);
  }

  lemma InFront(users: seq<UserId>, before: seq<UserId>)
    ensures forall x <- Front(users, before) :: x in users
  {
    hide Placed, Front;
    var v := Front(users, before);
    assert users == v + users[|v|..];
  }

  /** Then the kept users before the last new one head the old list. */
  lemma InPlaceHeads(before: seq<UserId>, users: seq<UserId>)
    requires Distinct(before) && Distinct(users) && InPlace(before, users)
    ensures Common(Front(users, before), before) <= before
  {
    hide Common, Front, Distinct, Placed;
    var v := Front(users, before);
    var t := users[|v|..];
    assert users == v + t;
    CommonAppend(v, t, before);
    var k := Common(v, before);
    CommonFacts(v, before);
    if k != [] {
      var last := k[|k| - 1];
      assert last in k && last in v && last in before;
      var j :| 0 <= j < |before| && before[j] == last;
      AllKeptUpTo(before, users, j);
      CommonFacts(before, users);
      SamePrefix(Common(before, users), before[..j + 1], Common(before[j + 1..], users), k, Common(t, before));
    }
  }

  /** Two beginnings of a list without duplicates that end in the same element are the same. */
  lemma SamePrefix(all: seq<UserId>, p: seq<UserId>, more: seq<UserId>, k: seq<UserId>, rest: seq<UserId>)
    requires Distinct(all) && all == p + more && all == k + rest
    requires p != [] && k != [] && p[|p| - 1] == k[|k| - 1]
    ensures p == k
  {
    assert all[|p| - 1] == p[|p| - 1] && all[|k| - 1] == k[|k| - 1];
    assert |p| == |k|;
    assert p == all[..|p|] && k == all[..|k|];
  }

  lemma InPlaceMirrors(before: seq<UserId>, users: seq<UserId>)
    requires Distinct(before) && Distinct(users) && InPlace(before, users)
    ensures Common(Placed(before, users), users) == users
  {
    hide Common, Front, Placed;
    InPlaceHeads(before, users);
    var v := Front(users, before);
    var t := users[|v|..];
    var k := Common(v, before);
    var q := before[|k|..];
    assert users == v + t && before == k + q;
    assert Placed(before, users) == Placed(before, v);
    Straight(before, v, q);
    CommonAppend(v, q, users);
    CommonFacts(v, users);
    CommonAppend(k, q, users);
    CommonFacts(v, before);
    CommonFacts(k, users);
    CommonAppend(v, t, before);
    CommonFacts(t, before);
    assert k + Common(q, users) == k + Common(t, before);
    assert Common(q, users) == (k + Common(q, users))[|k|..] == (k + Common(t, before))[|k|..] == t;
  }

  /** The old list is what remains of the additions' result without the new users. */
  lemma {:induction false} PlacedKeeps(before: seq<UserId>, users: seq<UserId>)
    requires Distinct(before) && Distinct(users)
    ensures Common(Placed(before, users), before) == before
    ensures |Placed(before, users)| == |before| + |Apart(users, before)| && |users| <= |Placed(before, users)|
    ensures Distinct(Placed(before, users)) && forall x :: x in Placed(before, users) <==> x in before || x in users
    decreases |users|
  {
    hide Common, Apart, InsertAt;
    if users == [] {
      CommonFacts(before, before);
      CommonFacts(users, before);
    } else {
      var n := |users| - 1;
      var v, u := users[..n], users[n];
      assert users == v + [u];
      PlacedKeeps(before, v);
      var w := Placed(before, v);
      ApartAppend(v, [u], before);
      OneOf(u, before);
      CommonFacts(users, before);
      NoLonger(Common(users, before), before);
      if u !in before {
        InsertedInto(w, u, n, before);
        InsertAtFacts(w, u, n);
      }
    }
  }

  lemma InsertedInto(w: seq<UserId>, u: UserId, n: nat, before: seq<UserId>)
    requires n <= |w| && u !in before
    ensures InsertAt(w, u, n) == w[..n] + [u] + w[n..] && Common(InsertAt(w, u, n), before) == Common(w, before)
  {
    hide Common;
    assert InsertAt(w, u, n) == w[..n] + [u] + w[n..];
    assert w == w[..n] + w[n..];
    CommonAppend(w[..n] + [u], w[n..], before);
    CommonAppend(w[..n], [u], before);
    CommonAppend(w[..n], w[n..], before);
    OneOf(u, before);
    assert Common(w[..n], before) + [] == Common(w[..n], before);
  }

  /** If the lists agree in the end, the additions built the front of the new list as it is. */
  lemma MirroredFront(before: seq<UserId>, users: seq<UserId>)
    requires Distinct(before) && Distinct(users) && Common(Placed(before, users), users) == users && Front(users, before) != []
    ensures var v := Front(users, before); var w := Placed(before, users); |v| <= |w| && w[..|v|] == v
  {
    hide Common, Placed, Front;
    var v := Front(users, before);
    var n := |v| - 1;
    var a := v[n];
    var t := users[|v|..];
    assert users == v[..n] + [a] + t;
    assert Distinct(v[..n]) && a !in before;
    var w := Placed(before, v[..n]);
    PlacedKeeps(before, v[..n]);
    PlacedLast(before, v);
    InsertedInto(w, a, n, before);
    var x, y := w[..n], w[n..];
    assert Placed(before, users) == x + [a] + y;
    CommonAppend(x + [a], y, users);
    CommonAppend(x, [a], users);
    assert users[n] == a;
    OneOf(a, users);
    CommonFacts(x, users);
    var c := Common(x, users);
    assert users == c + [a] + Common(y, users);
    assert users[|c|] == a && users[n] == a;
    assert |c| == n == |x|;
    assert x == c == users[..n] == v[..n];
  }

  lemma PlacedLast(before: seq<UserId>, v: seq<UserId>)
    requires v != [] && v[|v| - 1] !in before
    ensures Placed(before, v) == InsertAt(Placed(before, v[..|v| - 1]), v[|v| - 1], |v| - 1)
  {
  }

  lemma MirrorsInPlace(before: seq<UserId>, users: seq<UserId>)
    requires Distinct(before) && Distinct(users) && Common(Placed(before, users), users) == users
    ensures InPlace(before, users)
  {
    hide Common, Placed, Front;
    var w := Placed(before, users);
    PlacedKeeps(before, users);
    CommonCommutes(w, users, before);
    assert Common(users, before) == Common(before, users);
    var v := Front(users, before);
    if v != [] {
      MirroredFront(before, users);
      assert w == v + w[|v|..];
      CommonAppend(v, w[|v|..], before);
      var k := Common(v, before);
      assert before == k + Common(w[|v|..], before);
      CommonFacts(v, before);
      forall i, j | 0 <= i < j < |before| && before[j] in v ensures before[i] in users {
        assert before[j] in k;
        var m :| 0 <= m < |k| && k[m] == before[j];
        assert before[m] == k[m];
        assert m == j;
        assert before[i] == k[i] && k[i] in k && k[i] in v;
      }
    }
  }

  /** The kept lists agree by position after a reload if and only if it keeps positions. */
  lemma ReloadMirrors(objects: seq<User>, before: seq<UserId>, es: seq<Entry>, l: Loaded)
    requires Faithful(objects, before, true, es, l) && Within(objects, before) && Distinct(before)
    ensures AllRemoved(AllAdded(before, l.users, l.added), Apart(before, l.users)) == l.users <==> InPlace(before, l.users)
  {
    hide Common, Placed, Front, Preserved, Noticed, AllAdded, AllRemoved, Represented, Justified, InPlace, Apart;
    assert Distinct(l.users) && l.added == Apart(l.users, before);
    assert l.users[..|l.users|] == l.users;
    AddedPrefix(before, l.users, |l.users|);
    var w := Placed(before, l.users);
    PlacedKeeps(before, l.users);
    AllRemovedIs(w, Apart(before, l.users));
    NotRemoved(w, before, l.users);
    if InPlace(before, l.users) {
      InPlaceMirrors(before, l.users);
    }
    if Common(w, l.users) == l.users {
      MirrorsInPlace(before, l.users);
    }
  }

  function Plain(name: octet, realName: octet): User {
    User([name], [realName], [], None, None, 1000, 1000)
  }

  function PlainEntry(name: octet, realName: octet): Entry {
    Entry([name], [realName], [], None, None, 1000, 1000)
  }

  const ANN := Plain(97, 97)
  const MAX := Plain(109, 109)
  const RENAMED := Plain(97, 122)

  lemma Renames()
    ensures Updated(ANN, PlainEntry(97, 122)) == RENAMED && Updated(MAX, PlainEntry(109, 109)) == MAX
  {
    assert [122][1..] == [] && [109][1..] == [];
    assert BeforeComma([122]) == [122] + BeforeComma([]) && BeforeComma([109]) == [109] + BeforeComma([]);
  }

  lemma FirstEntry()
    ensures LoadOne(Loaded([ANN, MAX], [], [], []), [0, 1], true, PlainEntry(97, 122)) == Loaded([RENAMED, MAX], [0], [], [0])
  {
    hide Updated;
    Renames();
    assert Known([ANN, MAX], [0, 1], [97]) == Some(0);
    assert Put([ANN, MAX], 0, RENAMED) == [RENAMED, MAX];
    assert InsertSorted([RENAMED, MAX], [], 0) == [0];
  }

  lemma SecondEntry()
    ensures LoadOne(Loaded([RENAMED, MAX], [0], [], [0]), [0, 1], true, PlainEntry(109, 109)) == Loaded([RENAMED, MAX], [1, 0], [], [0])
  {
    hide Updated;
    Renames();
    assert [0, 1][1..] == [1];
    assert Known([RENAMED, MAX], [1], [109]) == Some(1);
    assert Known([RENAMED, MAX], [0, 1], [109]) == Some(1);
    assert Put([RENAMED, MAX], 1, MAX) == [RENAMED, MAX];
    assert Leq([109], [122]);
    assert Place([RENAMED, MAX], [0], 1) == 0;
    assert InsertSorted([RENAMED, MAX], [0], 1) == [1, 0];
  }

  /** Position by position the lists need not agree: a user that is renamed moves in one list only. */
  lemma ReloadReorders()
    ensures var l := LoadAll([ANN, MAX], [0, 1], true, [PlainEntry(97, 122), PlainEntry(109, 109)]);
            && l.users == [1, 0] && l.added == [] && l.changed == [0]
            && AllRemoved(AllAdded([0, 1], l.users, l.added), Apart([0, 1], l.users)) == [0, 1]
  {
    hide LoadOne, LoadAll;
    var e, f := PlainEntry(97, 122), PlainEntry(109, 109);
    FirstEntry();
    SecondEntry();
    LoadNothing([ANN, MAX], [0, 1], true);
    LoadAllSnoc([ANN, MAX], [0, 1], true, [], e);
    LoadAllSnoc([ANN, MAX], [0, 1], true, [e], f);
    assert [] + [e] == [e] && [e] + [f] == [e, f];
    assert Apart([0, 1], [1, 0]) == [] by {
      assert [0, 1][1..] == [1] && [1][1..] == [];
      assert Apart([1], [1, 0]) == Apart<UserId>([], [1, 0]);
    }
  }

  lemma KeptEntry()
    ensures LoadOne(Loaded([ANN, MAX], [], [], []), [0, 1], true, PlainEntry(109, 109)) == Loaded([ANN, MAX], [1], [], [])
  {
    hide Updated;
    Renames();
    assert [0, 1][1..] == [1];
    assert Known([ANN, MAX], [1], [109]) == Some(1);
    assert Known([ANN, MAX], [0, 1], [109]) == Some(1);
    assert Put([ANN, MAX], 1, MAX) == [ANN, MAX];
    assert InsertSorted([ANN, MAX], [], 1) == [1];
  }

  lemma MadeZed()
    ensures Made(PlainEntry(122, 122)).realName == [122] && Made(PlainEntry(122, 122)).name == [122]
  {
    assert [122][1..] == [] && BeforeComma([122]) == [122] + BeforeComma([]);
  }

  lemma NewEntry()
    ensures var objects := [ANN, MAX, Made(PlainEntry(122, 122))];
            LoadOne(Loaded([ANN, MAX], [1], [], []), [0, 1], true, PlainEntry(122, 122)) == Loaded(objects, [1, 2], [2], [])
  {
    hide Made;
    var e := PlainEntry(122, 122);
    var objects := [ANN, MAX, Made(e)];
    assert [0, 1][1..] == [1] && [1][1..] == [];
    assert Known([ANN, MAX], [1], [122]) == None;
    assert Known([ANN, MAX], [0, 1], [122]) == None;
    MadeZed();
    assert !Leq([122], [109]);
    assert Place(objects, [1], 2) == 1 + Place(objects, [], 2) == 1;
    assert InsertSorted(objects, [1], 2) == [1, 2];
    assert InsertSorted(objects, [], 2) == [2];
    assert [ANN, MAX] + [Made(e)] == objects;
  }

  /** Nor when nobody is renamed: one user is deleted and one added. */
  lemma DeleteAndAddReorders()
    ensures var l := LoadAll([ANN, MAX], [0, 1], true, [PlainEntry(109, 109), PlainEntry(122, 122)]);
            && l.users == [1, 2] && l.added == [2] && l.changed == [] && Apart([0, 1], l.users) == [0]
            && AllRemoved(AllAdded([0, 1], l.users, l.added), Apart([0, 1], l.users)) == [2, 1]
            && !InPlace([0, 1], l.users)
  {
    hide LoadOne, LoadAll;
    var e, f := PlainEntry(109, 109), PlainEntry(122, 122);
    KeptEntry();
    NewEntry();
    LoadNothing([ANN, MAX], [0, 1], true);
    LoadAllSnoc([ANN, MAX], [0, 1], true, [], e);
    LoadAllSnoc([ANN, MAX], [0, 1], true, [e], f);
    assert [] + [e] == [e] && [e] + [f] == [e, f];
    DeletedAndAdded();
  }

  lemma DeletedAndAdded()
    ensures Apart([0, 1], [1, 2]) == [0]
    ensures AllRemoved(AllAdded([0, 1], [1, 2], [2]), [0]) == [2, 1]
    ensures !InPlace([0, 1], [1, 2])
  {
    hide AllAdded, AllRemoved, InPlace;
    assert [0, 1][1..] == [1] && [1][1..] == [];
    assert Apart([1], [1, 2]) == Apart<UserId>([], [1, 2]) == [];
    AddedThenRemoved();
    NotInPlace();
  }

  lemma AddedThenRemoved()
    ensures AllRemoved(AllAdded([0, 1], [1, 2], [2]), [0]) == [2, 1]
  {
    assert [2][1..] == [] && [0][1..] == [] && [1, 2][1..] == [2];
    assert IndexOf([1, 2], 2) == 1;
    assert InsertAt([0, 1], 2, 1) == [0, 2, 1];
    assert AllAdded([0, 1], [1, 2], [2]) == AllAdded([0, 2, 1], [1, 2], []) == [0, 2, 1];
    assert Without([0, 2, 1], 0) == [2, 1];
    assert AllRemoved([0, 2, 1], [0]) == AllRemoved([2, 1], []) == [2, 1];
  }

  lemma NotInPlace()
    ensures !InPlace([0, 1], [1, 2])
  {
    hide Common;
    assert Front([1, 2], [0, 1]) == [1, 2];
    assert [0, 1][1] in Front([1, 2], [0, 1]) && [0, 1][0] !in [1, 2];
  }
}
