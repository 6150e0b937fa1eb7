/**
  The list of users that may log in, reloaded from the password database
  (common/user-list.c): which entries are shown, which objects are kept, and what is notified.
 */
module UserList {
  import opened Octets
  import opened Lists

  type UserId = nat

  datatype User = User(name: Text, realName: Text, home: Text, shell: Option<Text>, image: Option<Text>, uid: int, gid: int)

  /** A password entry, with the face image that its home directory holds. */
  datatype Entry = Entry(name: Text, gecos: Text, home: Text, shell: Option<Text>, image: Option<Text>, uid: int, gid: int)

  datatype Settings = Settings(minimumUid: int, hiddenUsers: seq<Text>, hiddenShells: seq<Text>)

  const COMMA: octet := 44

  // ------------------------------------------------------------------ order

  function DisplayName(u: User): Text {
    if u.realName == [] then u.name else u.realName
  }

  const NOBODY := User([], [], [], None, None, 0, 0)

  function At(objects: seq<User>, x: UserId): User {
    if x < |objects| then objects[x] else NOBODY
  }

  /** By display name. */
  predicate Before(objects: seq<User>, a: UserId, b: UserId) {
    Leq(DisplayName(At(objects, a)), DisplayName(At(objects, b)))
  }

  predicate Within(objects: seq<User>, ids: seq<UserId>) {
    forall x <- ids :: x < |objects|
  }

  ghost predicate Sorted(objects: seq<User>, ids: seq<UserId>) {
    forall i, j :: 0 <= i < j < |ids| ==> Before(objects, ids[i], ids[j])
  }

  /** Where `g_list_insert_sorted` puts an element: before the first that is not smaller. */
  function Place(objects: seq<User>, ids: seq<UserId>, x: UserId): (k: nat)
    ensures k <= |ids|
  {
    if ids == [] || Before(objects, x, ids[0]) then 0 else 1 + Place(objects, ids[1..], x)
  }

  function InsertSorted(objects: seq<User>, ids: seq<UserId>, x: UserId): seq<UserId> {
    var k := Place(objects, ids, x);
    ids[..k] + [x] + ids[k..]
  }

  lemma {:induction false} PlaceFacts(objects: seq<User>, ids: seq<UserId>, x: UserId)
    ensures var k := Place(objects, ids, x);
            (forall i :: 0 <= i < k ==> !Before(objects, x, ids[i])) && (k < |ids| ==> Before(objects, x, ids[k]))
  {
    if ids != [] && !Before(objects, x, ids[0]) {
      PlaceFacts(objects, ids[1..], x);
      var k := Place(objects, ids[1..], x);
      forall i | 0 <= i < k + 1 ensures !Before(objects, x, ids[i]) {
        if i > 0 {
          assert ids[i] == ids[1..][i - 1];
        }
      }
    }
  }

  lemma InsertSortedFacts(objects: seq<User>, ids: seq<UserId>, x: UserId)
    ensures var t := InsertSorted(objects, ids, x);
            && |t| == |ids| + 1 && (forall y :: y in t <==> y in ids || y == x)
            && (Sorted(objects, ids) ==> Sorted(objects, t))
            && (Distinct(ids) && x !in ids ==> Distinct(t))
  {
    hide Sorted, Distinct, Place;
    InsertedAt(ids, x, Place(objects, ids, x));
    if Sorted(objects, ids) {
      InsertKeepsSorted(objects, ids, x);
    }
  }

  lemma InsertedAt(ids: seq<UserId>, x: UserId, k: nat)
    requires k <= |ids|
    ensures var t := ids[..k] + [x] + ids[k..];
            (forall y :: y in t <==> y in ids || y == x) && (Distinct(ids) && x !in ids ==> Distinct(t))
  {
    var t := ids[..k] + [x] + ids[k..];
    assert t[k] == x;
    forall y | y in ids ensures y in t {
      var i :| 0 <= i < |ids| && ids[i] == y;
      assert t[if i < k then i else i + 1] == y;
    }
    forall y | y in t ensures y in ids || y == x {
      var i :| 0 <= i < |t| && t[i] == y;
      assert i != k ==> ids[if i < k then i else i - 1] == y;
    }
    if Distinct(ids) && x !in ids {
      forall i, j | 0 <= i < j < |t| ensures t[i] != t[j] {
        assert i != k ==> t[i] == ids[if i < k then i else i - 1];
        assert j != k ==> t[j] == ids[if j < k then j else j - 1];
      }
    }
  }

  lemma InsertKeepsSorted(objects: seq<User>, ids: seq<UserId>, x: UserId)
    requires Sorted(objects, ids)
    ensures Sorted(objects, InsertSorted(objects, ids, x))
  {
    hide Leq;
    var k, t := Place(objects, ids, x), InsertSorted(objects, ids, x);
    PlaceFacts(objects, ids, x);
    forall i, j | 0 <= i < j < |t| ensures Before(objects, t[i], t[j]) {
      if j == k {
        assert !Before(objects, x, ids[i]);
        LeqTotal(DisplayName(At(objects, x)), DisplayName(At(objects, ids[i])));
      } else if i == k {
        assert t[j] == ids[j - 1] && Before(objects, x, ids[k]);
        if j - 1 > k {
          assert Before(objects, ids[k], ids[j - 1]);
          LeqTransitive(DisplayName(At(objects, x)), DisplayName(At(objects, ids[k])), DisplayName(At(objects, ids[j - 1])));
        }
      } else {
        assert t[i] == ids[if i < k then i else i - 1] && t[j] == ids[if j < k then j else j - 1];
      }
    }
  }

  // ------------------------------------------------------------------ entries

  /** The entries of the database that are shown. */
  predicate Accepted(settings: Settings, e: Entry) {
    && e.uid >= settings.minimumUid
    && (e.shell.Some? ==> e.shell.value !in settings.hiddenShells)
    && e.name !in settings.hiddenUsers
  }

  function Shown(settings: Settings, es: seq<Entry>): seq<Entry> {
    if es == [] then []
    else
      var n := |es| - 1;
      Shown(settings, es[..n]) + if Accepted(settings, es[n]) then [es[n]] else []
  }

  function BeforeComma(t: Text): Text {
    if t == [] || t[0] == COMMA then [] else [t[0]] + BeforeComma(t[1..])
  }

  function Made(e: Entry): User {
    User(e.name, BeforeComma(e.gecos), e.home, e.shell, e.image, e.uid, e.gid)
  }

  /** `update_passwd_user`: the four fields that are compared are the ones that are copied. */
  function Updated(u: User, e: Entry): User {
    u.(realName := BeforeComma(e.gecos), home := e.home, shell := e.shell, image := e.image)
  }

  /** The old object of a name. */
  function Known(objects: seq<User>, before: seq<UserId>, name: Text): (r: Option<UserId>)
    ensures r.Some? ==> r.value in before && At(objects, r.value).name == name
    ensures r.None? ==> forall x <- before :: At(objects, x).name != name
  {
    if before == [] then None
    else if At(objects, before[0]).name == name then Some(before[0])
    else Known(objects, before[1..], name)
  }

  // ------------------------------------------------------------------ loading

  datatype Loaded = Loaded(objects: seq<User>, users: seq<UserId>, added: seq<UserId>, changed: seq<UserId>)

  function Put(objects: seq<User>, x: UserId, u: User): seq<User> {
    if x < |objects| then objects[x := u] else objects
  }

  /** One turn of the loop over the database: an old object of that name is updated, or a new one is made. */
  function LoadOne(l: Loaded, before: seq<UserId>, haveUsers: bool, e: Entry): (t: Loaded) {
    var known := Known(l.objects, before, e.name);
    if known.Some? then
      var x := known.value;
      var objects := Put(l.objects, x, Updated(At(l.objects, x), e));
      var changed := if At(objects, x) != At(l.objects, x) then InsertSorted(objects, l.changed, x) else l.changed;
      Loaded(objects, InsertSorted(objects, l.users, x), l.added, changed)
    else
      var objects := l.objects + [Made(e)];
      var x := |l.objects|;
      Loaded(objects, InsertSorted(objects, l.users, x), if haveUsers then InsertSorted(objects, l.added, x) else l.added, l.changed)
  }

  function LoadAll(objects: seq<User>, before: seq<UserId>, haveUsers: bool, es: seq<Entry>): (l: Loaded) {
    if es == [] then Loaded(objects, [], [], [])
    else LoadOne(LoadAll(objects, before, haveUsers, es[..|es| - 1]), before, haveUsers, es[|es| - 1])
  }

  lemma ApartStep(before: seq<UserId>, i: nat, users: seq<UserId>)
    requires i < |before|
    ensures Apart(before[i..], users) == (if before[i] in users then [] else [before[i]]) + Apart(before[i + 1..], users)
  {
    assert before[i..][1..] == before[i + 1..];
  }

  lemma ApartEnds(before: seq<UserId>, users: seq<UserId>)
    ensures before[0..] == before && before[|before|..] == [] && Apart<UserId>([], users) == []
  {
  }

  // ------------------------------------------------------------------ what a reload yields

  predicate DistinctNames(es: seq<Entry>) {
    forall i, j :: 0 <= i < j < |es| ==> es[i].name != es[j].name
  }

  /** An object stands for an entry: the old object of that name if there was one. */
  predicate Stands(objects: seq<User>, before: seq<UserId>, l: Loaded, x: UserId, e: Entry) {
    && At(l.objects, x).name == e.name
    && var known := Known(objects, before, e.name);
       if known.Some? then x == known.value && At(l.objects, x) == Updated(At(objects, x), e)
       else |objects| <= x < |l.objects| && At(l.objects, x) == Made(e)
  }

  /** The names of old objects never change, and an old object that is not listed does not change at all. */
  ghost predicate Preserved(objects: seq<User>, l: Loaded) {
    && |objects| <= |l.objects| && Within(l.objects, l.users)
    && (forall x :: 0 <= x < |objects| ==> l.objects[x].name == objects[x].name && (x !in l.users ==> l.objects[x] == objects[x]))
    && (forall x :: |objects| <= x < |l.objects| ==> x in l.users)
  }

  /** Some listed object stands for the entry. */
  ghost predicate Represented(objects: seq<User>, before: seq<UserId>, l: Loaded, e: Entry) {
    exists x <- l.users :: Stands(objects, before, l, x, e)
  }

  /** The object stands for some entry. */
  ghost predicate Justified(objects: seq<User>, before: seq<UserId>, es: seq<Entry>, l: Loaded, x: UserId) {
    exists e <- es :: Stands(objects, before, l, x, e)
  }

  /** One object per entry, and nothing else. */
  ghost predicate Complete(objects: seq<User>, before: seq<UserId>, es: seq<Entry>, l: Loaded) {
    && |l.users| == |es| && Distinct(l.users)
    && (forall e <- es :: Represented(objects, before, l, e))
    && (forall x <- l.users :: Justified(objects, before, es, l, x))
  }

  /** Sorted lists of exactly the new objects and of exactly the kept objects that changed. */
  ghost predicate Noticed(objects: seq<User>, haveUsers: bool, l: Loaded) {
    && Sorted(l.objects, l.users) && Sorted(l.objects, l.added) && Sorted(l.objects, l.changed)
    && Distinct(l.added) && Distinct(l.changed)
    && (forall x :: x in l.added <==> haveUsers && x in l.users && x >= |objects|)
    && (forall x :: x in l.changed <==> x in l.users && x < |objects| && At(l.objects, x) != At(objects, x))
  }

  /** The new objects are listed in the order that they have among all. */
  ghost predicate InStep(before: seq<UserId>, haveUsers: bool, l: Loaded) {
    l.added == if haveUsers then Apart(l.users, before) else []
  }

  ghost predicate Faithful(objects: seq<User>, before: seq<UserId>, haveUsers: bool, es: seq<Entry>, l: Loaded) {
    && Preserved(objects, l) && Complete(objects, before, es, l) && Noticed(objects, haveUsers, l)
    && InStep(before, haveUsers, l)
  }

  lemma {:induction false} KnownSame(objects: seq<User>, later: seq<User>, before: seq<UserId>, name: Text)
    requires Within(objects, before) && |objects| <= |later| && forall x :: 0 <= x < |objects| ==> later[x].name == objects[x].name
    ensures Known(later, before, name) == Known(objects, before, name)
    decreases |before|
  {
    if before != [] {
      assert before[0] in before;
      forall x <- before[1..] ensures x < |objects| {
        assert x in before;
      }
      KnownSame(objects, later, before[1..], name);
    }
  }

  /** The object that the next entry goes to. */
  function Target(l: Loaded, before: seq<UserId>, e: Entry): UserId {
    var known := Known(l.objects, before, e.name);
    if known.Some? then known.value else |l.objects|
  }

  lemma TargetUnlisted(objects: seq<User>, before: seq<UserId>, es: seq<Entry>, l: Loaded, e: Entry)
    requires Preserved(objects, l) && Complete(objects, before, es, l) && Within(objects, before) && DistinctNames(es + [e])
    ensures Target(l, before, e) !in l.users
  {
    hide Distinct, Known, Preserved, Stands, At;
    forall y <- l.users ensures At(l.objects, y).name != e.name {
      var f :| f in es && Stands(objects, before, l, y, f);
      StandsName(objects, before, l, y, f);
      var i :| 0 <= i < |es| && es[i] == f;
      assert (es + [e])[i] == f && (es + [e])[|es|] == e;
    }
    PreservedWithin(objects, l);
  }

  lemma StandsName(objects: seq<User>, before: seq<UserId>, l: Loaded, x: UserId, e: Entry)
    requires Stands(objects, before, l, x, e)
    ensures At(l.objects, x).name == e.name
  {
  }

  lemma PreservedWithin(objects: seq<User>, l: Loaded)
    requires Preserved(objects, l)
    ensures |l.objects| !in l.users
  {
  }

  /** It is not listed yet, and it is the only object that changes. */
  lemma TargetFresh(objects: seq<User>, before: seq<UserId>, haveUsers: bool, es: seq<Entry>, l: Loaded, e: Entry)
    requires Preserved(objects, l) && Complete(objects, before, es, l) && Within(objects, before) && DistinctNames(es + [e])
    ensures var x, t := Target(l, before, e), LoadOne(l, before, haveUsers, e);
            && x !in l.users && x < |t.objects| && |l.objects| <= |t.objects| <= |l.objects| + 1
            && (forall y :: y != x ==> At(t.objects, y) == At(l.objects, y))
            && t.users == InsertSorted(t.objects, l.users, x)
            && Stands(objects, before, t, x, e)
            && (x < |objects| ==> |t.objects| == |l.objects| && At(l.objects, x) == At(objects, x))
            && (x >= |objects| ==> x == |l.objects| && |t.objects| == |l.objects| + 1)
            && At(t.objects, x).name == e.name
  {
    hide InsertSorted, Updated, Made, Complete, DistinctNames, Known;
    TargetUnlisted(objects, before, es, l, e);
    KnownSame(objects, l.objects, before, e.name);
    var x := Target(l, before, e);
    UpdatedName(At(l.objects, x), e);
    if Known(objects, before, e.name).Some? {
      assert x in before && x < |objects|;
    }
  }

  lemma UpdatedName(u: User, e: Entry)
    ensures Updated(u, e).name == u.name && Made(e).name == e.name
  {
  }

  lemma OnePreserved(objects: seq<User>, before: seq<UserId>, haveUsers: bool, es: seq<Entry>, l: Loaded, e: Entry)
    requires Preserved(objects, l) && Complete(objects, before, es, l) && Within(objects, before) && DistinctNames(es + [e])
    ensures Preserved(objects, LoadOne(l, before, haveUsers, e))
  {
    hide LoadOne, InsertSorted, Complete, Stands, DistinctNames;
    var x, t := Target(l, before, e), LoadOne(l, before, haveUsers, e);
    TargetFresh(objects, before, haveUsers, es, l, e);
    InsertSortedFacts(t.objects, l.users, x);
    forall y | 0 <= y < |objects|
      ensures t.objects[y].name == objects[y].name && (y !in t.users ==> t.objects[y] == objects[y])
    {
      if y != x {
        assert At(t.objects, y) == At(l.objects, y);
      } else {
        assert At(l.objects, x) == At(objects, x);
        assert Known(l.objects, before, e.name).Some?;
      }
    }
    forall y | |objects| <= y < |t.objects| ensures y in t.users {
      if y < |l.objects| {
        assert y in l.users;
      }
    }
  }

  lemma StandsLater(objects: seq<User>, before: seq<UserId>, l: Loaded, t: Loaded, x: UserId, e: Entry)
    requires Stands(objects, before, l, x, e) && At(t.objects, x) == At(l.objects, x) && |l.objects| <= |t.objects|
    ensures Stands(objects, before, t, x, e)
  {
  }

  lemma OneComplete(objects: seq<User>, before: seq<UserId>, haveUsers: bool, es: seq<Entry>, l: Loaded, e: Entry)
    requires Preserved(objects, l) && Complete(objects, before, es, l) && Within(objects, before) && DistinctNames(es + [e])
    ensures Complete(objects, before, es + [e], LoadOne(l, before, haveUsers, e))
  {
    hide LoadOne, InsertSorted, Preserved, Stands, DistinctNames, Target, At, Known, Within, Distinct, Represented, Justified;
    var x, t := Target(l, before, e), LoadOne(l, before, haveUsers, e);
    TargetFresh(objects, before, haveUsers, es, l, e);
    InsertSortedFacts(t.objects, l.users, x);
    forall f <- es + [e] ensures Represented(objects, before, t, f) {
      if f in es {
        EntryStands(objects, before, l, t, x, f);
      } else {
        NewStands(objects, before, es, t, x, e);
      }
    }
    forall y <- t.users ensures Justified(objects, before, es + [e], t, y) {
      if y == x {
        NewStands(objects, before, es, t, x, e);
      } else {
        UserStands(objects, before, es, l, t, x, y, e);
      }
    }
  }

  lemma NewStands(objects: seq<User>, before: seq<UserId>, es: seq<Entry>, t: Loaded, x: UserId, e: Entry)
    requires Stands(objects, before, t, x, e) && x in t.users
    ensures Represented(objects, before, t, e) && Justified(objects, before, es + [e], t, x)
  {
    hide Stands;
    assert (es + [e])[|es|] == e;
  }

  lemma EntryStands(objects: seq<User>, before: seq<UserId>, l: Loaded, t: Loaded, x: UserId, f: Entry)
    requires Represented(objects, before, l, f) && x !in l.users && |l.objects| <= |t.objects|
    requires (forall y :: y != x ==> At(t.objects, y) == At(l.objects, y)) && (forall y <- l.users :: y in t.users)
    ensures Represented(objects, before, t, f)
  {
    hide Stands, At;
    var y :| y in l.users && Stands(objects, before, l, y, f);
    StandsLater(objects, before, l, t, y, f);
  }

  lemma UserStands(objects: seq<User>, before: seq<UserId>, es: seq<Entry>, l: Loaded, t: Loaded, x: UserId, y: UserId, e: Entry)
    requires Justified(objects, before, es, l, y) && y != x && |l.objects| <= |t.objects|
    requires forall z :: z != x ==> At(t.objects, z) == At(l.objects, z)
    ensures Justified(objects, before, es + [e], t, y)
  {
    hide Stands, At;
    var f :| f in es && Stands(objects, before, l, y, f);
    StandsLater(objects, before, l, t, y, f);
    assert f in es + [e];
  }

  lemma SortedLater(objects: seq<User>, later: seq<User>, ids: seq<UserId>, x: UserId)
    requires Sorted(objects, ids) && x !in ids && forall y :: y != x ==> At(later, y) == At(objects, y)
    ensures Sorted(later, ids)
  {
    hide Leq, At;
    forall i, j | 0 <= i < j < |ids| ensures Before(later, ids[i], ids[j]) {
      assert Before(objects, ids[i], ids[j]) && ids[i] in ids && ids[j] in ids;
    }
  }

  lemma OneNoticed(objects: seq<User>, before: seq<UserId>, haveUsers: bool, es: seq<Entry>, l: Loaded, e: Entry)
    requires Faithful(objects, before, haveUsers, es, l) && Within(objects, before) && DistinctNames(es + [e])
    ensures Noticed(objects, haveUsers, LoadOne(l, before, haveUsers, e))
  {
    hide InsertSorted, Preserved, Complete, Stands, DistinctNames, At, Sorted, Distinct, Updated, Made, Put;
    var x, t := Target(l, before, e), LoadOne(l, before, haveUsers, e);
    TargetFresh(objects, before, haveUsers, es, l, e);
    assert x !in l.added && x !in l.changed;
    SortedLater(l.objects, t.objects, l.users, x);
    SortedLater(l.objects, t.objects, l.added, x);
    SortedLater(l.objects, t.objects, l.changed, x);
    InsertSortedFacts(t.objects, l.users, x);
    InsertSortedFacts(t.objects, l.added, x);
    InsertSortedFacts(t.objects, l.changed, x);
    assert Known(l.objects, before, e.name).Some? <==> x < |objects| by {
      PreservedKnown(objects, before, l, e);
    }
  }

  /** The place is the only one with everything before it smaller and what follows it not. */
  lemma {:induction false} PlaceOnly(objects: seq<User>, ids: seq<UserId>, x: UserId, k: nat)
    requires k <= |ids| && (forall i :: 0 <= i < k ==> !Before(objects, x, ids[i])) && (k < |ids| ==> Before(objects, x, ids[k]))
    ensures Place(objects, ids, x) == k
    decreases |ids|
  {
    hide Before;
    if k > 0 {
      assert !Before(objects, x, ids[0]);
      assert forall i :: 0 <= i < k - 1 ==> ids[1..][i] == ids[i + 1];
      PlaceOnly(objects, ids[1..], x, k - 1);
    }
  }

  /** A new object goes to the same place among the new ones as among all. */
  lemma SamePlace(objects: seq<User>, ids: seq<UserId>, before: seq<UserId>, x: UserId)
    requires Sorted(objects, ids)
    ensures x !in before ==> Apart(InsertSorted(objects, ids, x), before) == InsertSorted(objects, Apart(ids, before), x)
    ensures x in before ==> Apart(InsertSorted(objects, ids, x), before) == Apart(ids, before)
  {
    hide Apart, Place, Before;
    var k := Place(objects, ids, x);
    PlaceFacts(objects, ids, x);
    var p, q := ids[..k], ids[k..];
    assert ids == p + q;
    ApartAppend(p, q, before);
    ApartAppend(p + [x], q, before);
    ApartAppend(p, [x], before);
    OneOf(x, before);
    var a, b := Apart(p, before), Apart(q, before);
    ApartFacts(p, before);
    ApartFacts(q, before);
    if x in before {
      assert a + [] == a;
    } else {
      forall i | 0 <= i < |a| ensures !Before(objects, x, (a + b)[i]) {
        assert a[i] in p;
      }
      forall i | 0 <= i < |b| ensures Before(objects, x, b[i]) {
        assert b[i] in q;
        AllLarger(objects, ids, x, k, b[i]);
      }
      PlaceOnly(objects, a + b, x, |a|);
      assert (a + b)[..|a|] == a && (a + b)[|a|..] == b;
    }
  }

  lemma AllLarger(objects: seq<User>, ids: seq<UserId>, x: UserId, k: nat, y: UserId)
    requires Sorted(objects, ids) && k < |ids| && Before(objects, x, ids[k]) && y in ids[k..]
    ensures Before(objects, x, y)
  {
    hide Leq;
    var j :| 0 <= j < |ids[k..]| && ids[k..][j] == y;
    assert ids[k + j] == y;
    if j > 0 {
      assert Before(objects, ids[k], ids[k + j]);
      LeqTransitive(DisplayName(At(objects, x)), DisplayName(At(objects, ids[k])), DisplayName(At(objects, y)));
    }
  }

  lemma OneInStep(objects: seq<User>, before: seq<UserId>, haveUsers: bool, es: seq<Entry>, l: Loaded, e: Entry)
    requires Faithful(objects, before, haveUsers, es, l) && Within(objects, before) && DistinctNames(es + [e])
    ensures InStep(before, haveUsers, LoadOne(l, before, haveUsers, e))
  {
    hide InsertSorted, Preserved, Complete, Stands, DistinctNames, At, Sorted, Distinct, Updated, Made, Put, Apart;
    var x, t := Target(l, before, e), LoadOne(l, before, haveUsers, e);
    TargetFresh(objects, before, haveUsers, es, l, e);
    SortedLater(l.objects, t.objects, l.users, x);
    SamePlace(t.objects, l.users, before, x);
    PreservedKnown(objects, before, l, e);
    assert x in before <==> Known(l.objects, before, e.name).Some?;
  }

  lemma PreservedKnown(objects: seq<User>, before: seq<UserId>, l: Loaded, e: Entry)
    requires Preserved(objects, l) && Within(objects, before)
    ensures Known(l.objects, before, e.name).Some? <==> Target(l, before, e) < |objects|
  {
  }

  /**
    For every old list and every enumeration with distinct names, the loop yields one object
    per shown entry, the old object for a known name, sorted by display name, and lists exactly
    the new objects and the kept objects whose compared fields differ.
   */
  lemma {:induction false} LoadAllFaithful(objects: seq<User>, before: seq<UserId>, haveUsers: bool, es: seq<Entry>)
    requires Within(objects, before) && DistinctNames(es)
    ensures Faithful(objects, before, haveUsers, es, LoadAll(objects, before, haveUsers, es))
    decreases |es|
  {
    hide LoadOne, Preserved, Complete, Noticed, InStep;
    if es == [] {
      NothingFaithful(objects, before, haveUsers);
    } else {
      var n := |es| - 1;
      LoadAllFaithful(objects, before, haveUsers, es[..n]);
      var l := LoadAll(objects, before, haveUsers, es[..n]);
      assert es[..n] + [es[n]] == es;
      OnePreserved(objects, before, haveUsers, es[..n], l, es[n]);
      OneComplete(objects, before, haveUsers, es[..n], l, es[n]);
      OneNoticed(objects, before, haveUsers, es[..n], l, es[n]);
      OneInStep(objects, before, haveUsers, es[..n], l, es[n]);
    }
  }

  lemma NothingFaithful(objects: seq<User>, before: seq<UserId>, haveUsers: bool)
    ensures Faithful(objects, before, haveUsers, [], Loaded(objects, [], [], []))
  {
  }

  // ------------------------------------------------------------------ field by field

  /** A text is another up to its first comma, or all of it. */
  predicate FirstPart(r: Text, t: Text) {
    |r| <= |t| && t[..|r|] == r && 44 !in r && (|r| < |t| ==> t[|r|] == 44)
  }

  lemma {:induction false} BeforeCommaIs(t: Text)
    ensures FirstPart(BeforeComma(t), t)
    decreases |t|
  {
    if t != [] && t[0] != COMMA {
      BeforeCommaIs(t[1..]);
      assert t == [t[0]] + t[1..];
      assert t[..|BeforeComma(t)|] == [t[0]] + t[1..][..|BeforeComma(t[1..])|];
    }
  }

  lemma NoComma(r: Text, t: Text)
    requires FirstPart(r, t)
    ensures forall i :: 0 <= i < |r| ==> t[i] != 44
  {
    forall i | 0 <= i < |r| ensures t[i] != 44 {
      assert r[i] == t[i];
    }
  }

  /** There is one such part. */
  lemma FirstPartOnly(q: Text, r: Text, t: Text)
    requires FirstPart(q, t) && FirstPart(r, t)
    ensures q == r
  {
    NoComma(q, t);
    NoComma(r, t);
  }

  /** An object shows what an entry says. */
  predicate Says(u: User, e: Entry) {
    && u.name == e.name && FirstPart(u.realName, e.gecos) && u.home == e.home && u.shell == e.shell && u.image == e.image
  }

  /** Before the reload an object differed from an entry in one of the four fields that are kept up to date. */
  predicate Differed(u: User, e: Entry) {
    !FirstPart(u.realName, e.gecos) || u.home != e.home || u.shell != e.shell || u.image != e.image
  }

  /** Each listed object shows what its entry says; a kept one is reported changed exactly if it did not before. */
  ghost predicate ShowsEntry(objects: seq<User>, haveUsers: bool, l: Loaded, x: UserId, e: Entry) {
    && Says(At(l.objects, x), e)
    && (x < |objects| ==>
          && (x in l.changed <==> Differed(objects[x], e))
          && At(l.objects, x).uid == objects[x].uid && At(l.objects, x).gid == objects[x].gid)
    && (x >= |objects| ==>
          && x !in l.changed && (x in l.added <==> haveUsers)
          && At(l.objects, x).uid == e.uid && At(l.objects, x).gid == e.gid)
  }

  lemma StandsShows(objects: seq<User>, before: seq<UserId>, haveUsers: bool, l: Loaded, x: UserId, e: Entry)
    requires Stands(objects, before, l, x, e) && Noticed(objects, haveUsers, l) && x in l.users && Within(objects, before)
    ensures ShowsEntry(objects, haveUsers, l, x, e)
  {
    hide Sorted, Distinct, BeforeComma, FirstPart;
    BeforeCommaIs(e.gecos);
    if x < |objects| {
      var u, t := objects[x], At(l.objects, x);
      assert t == Updated(u, e);
      if FirstPart(u.realName, e.gecos) {
        FirstPartOnly(u.realName, t.realName, e.gecos);
      }
    }
  }

  /** In display order: by real name, or by name where that is empty. */
  ghost predicate InDisplayOrder(objects: seq<User>, ids: seq<UserId>) {
    forall i, j :: 0 <= i < j < |ids| ==>
      var u, v := At(objects, ids[i]), At(objects, ids[j]);
      Leq(if u.realName == [] then u.name else u.realName, if v.realName == [] then v.name else v.realName)
  }

  /** Some listed object shows the entry; if an old object has its name, an old one. */
  lemma EntryShown(objects: seq<User>, before: seq<UserId>, haveUsers: bool, l: Loaded, e: Entry)
    requires Represented(objects, before, l, e) && Noticed(objects, haveUsers, l) && Within(objects, before)
    ensures exists x <- l.users :: ShowsEntry(objects, haveUsers, l, x, e)
    ensures (exists x <- before :: objects[x].name == e.name) ==> exists y <- l.users :: y in before && ShowsEntry(objects, haveUsers, l, y, e)
  {
    hide ShowsEntry, Stands, Noticed;
    var y :| y in l.users && Stands(objects, before, l, y, e);
    StandsShows(objects, before, haveUsers, l, y, e);
    if x :| x in before && objects[x].name == e.name {
      StandsKept(objects, before, l, y, e, x);
    }
  }

  /** A listed object shows some entry. */
  lemma ObjectShows(objects: seq<User>, before: seq<UserId>, haveUsers: bool, es: seq<Entry>, l: Loaded, x: UserId)
    requires Justified(objects, before, es, l, x) && Noticed(objects, haveUsers, l) && Within(objects, before) && x in l.users
    ensures exists e <- es :: ShowsEntry(objects, haveUsers, l, x, e)
  {
    hide ShowsEntry, Stands, Noticed;
    var e :| e in es && Stands(objects, before, l, x, e);
    StandsShows(objects, before, haveUsers, l, x, e);
  }

  /**
    What a reload yields, field by field: every entry is shown by a listed object, an old one if
    it has the name, and every listed object shows an entry, in display order; kept objects are
    reported changed exactly if real name, home, shell or image was another before.
   */
  ghost predicate ByFields(objects: seq<User>, before: seq<UserId>, haveUsers: bool, es: seq<Entry>, l: Loaded)
    requires Within(objects, before)
  {
    && (forall e <- es :: exists x <- l.users :: ShowsEntry(objects, haveUsers, l, x, e))
    && (forall x <- l.users :: exists e <- es :: ShowsEntry(objects, haveUsers, l, x, e))
    && InDisplayOrder(l.objects, l.users)
    && (forall e <- es :: (exists x <- before :: objects[x].name == e.name) ==>
          exists y <- l.users :: y in before && ShowsEntry(objects, haveUsers, l, y, e))
  }

  lemma ReloadByFields(objects: seq<User>, before: seq<UserId>, haveUsers: bool, es: seq<Entry>, l: Loaded)
    requires Within(objects, before) && Faithful(objects, before, haveUsers, es, l)
    ensures ByFields(objects, before, haveUsers, es, l)
  {
    hide ShowsEntry, Preserved, InStep, Represented, Justified, Noticed;
    forall e <- es
      ensures exists x <- l.users :: ShowsEntry(objects, haveUsers, l, x, e)
      ensures (exists x <- before :: objects[x].name == e.name) ==> exists y <- l.users :: y in before && ShowsEntry(objects, haveUsers, l, y, e)
    {
      EntryShown(objects, before, haveUsers, l, e);
    }
    forall x <- l.users ensures exists e <- es :: ShowsEntry(objects, haveUsers, l, x, e) {
      ObjectShows(objects, before, haveUsers, es, l, x);
    }
    NoticedSorted(objects, haveUsers, l);
    SortedDisplays(l.objects, l.users);
  }

  lemma NoticedSorted(objects: seq<User>, haveUsers: bool, l: Loaded)
    requires Noticed(objects, haveUsers, l)
    ensures Sorted(l.objects, l.users)
  {
  }

  lemma StandsKept(objects: seq<User>, before: seq<UserId>, l: Loaded, y: UserId, e: Entry, x: UserId)
    requires Stands(objects, before, l, y, e) && x in before && Within(objects, before) && objects[x].name == e.name
    ensures y in before
  {
    assert Known(objects, before, e.name).Some?;
  }

  lemma SortedDisplays(objects: seq<User>, ids: seq<UserId>)
    requires Sorted(objects, ids)
    ensures InDisplayOrder(objects, ids)
  {
    hide Leq;
    forall i, j | 0 <= i < j < |ids|
      ensures var u, v := At(objects, ids[i]), At(objects, ids[j]);
              Leq(if u.realName == [] then u.name else u.realName, if v.realName == [] then v.name else v.realName)
    {
      assert Before(objects, ids[i], ids[j]);
    }
  }

  /** An entry is taken: a user id not below the minimum, no hidden shell and no hidden name. */
  predicate Visible(settings: Settings, e: Entry) {
    e.uid >= settings.minimumUid && (e.shell == None || e.shell.value !in settings.hiddenShells) && e.name !in settings.hiddenUsers
  }

  /** Exactly the visible entries are shown, each as often as the database lists it, and in its order. */
  lemma {:induction false} ShownIs(settings: Settings, es: seq<Entry>, e: Entry)
    ensures e in Shown(settings, es) <==> e in es && Visible(settings, e)
    ensures multiset(Shown(settings, es))[e] == if Visible(settings, e) then multiset(es)[e] else 0
    ensures forall k :: 0 <= k <= |es| ==> Shown(settings, es[..k]) <= Shown(settings, es)
    decreases |es|
  {
    if es == [] {
      assert es[..0] == [];
    } else {
      var n := |es| - 1;
      assert es == es[..n] + [es[n]];
      ShownIs(settings, es[..n], e);
      forall k | 0 <= k <= |es| ensures Shown(settings, es[..k]) <= Shown(settings, es) {
        if k <= n {
          assert es[..n][..k] == es[..k];
        } else {
          assert es[..k] == es;
        }
      }
    }
  }

  // ------------------------------------------------------------------ the object

  datatype Notice = Added(user: UserId) | Changed(user: UserId) | Removed(user: UserId)

  function Notices(added: seq<UserId>, changed: seq<UserId>, removed: seq<UserId>): seq<Notice> {
    seq(|added|, i requires 0 <= i < |added| => Added(added[i]))
    + seq(|changed|, i requires 0 <= i < |changed| => Changed(changed[i]))
    + seq(|removed|, i requires 0 <= i < |removed| => Removed(removed[i]))
  }

  /** First the additions, then the changes, then the removals, each in the order of its list. */
  lemma NoticesAre(added: seq<UserId>, changed: seq<UserId>, removed: seq<UserId>, i: nat)
    ensures var n := Notices(added, changed, removed);
            && |n| == |added| + |changed| + |removed|
            && (i < |added| ==> n[i] == Added(added[i]))
            && (i < |changed| ==> n[|added| + i] == Changed(changed[i]))
            && (i < |removed| ==> n[|added| + |changed| + i] == Removed(removed[i]))
  {
  }

  lemma LoadAllSnoc(objects: seq<User>, before: seq<UserId>, haveUsers: bool, es: seq<Entry>, e: Entry)
    ensures LoadAll(objects, before, haveUsers, es + [e]) == LoadOne(LoadAll(objects, before, haveUsers, es), before, haveUsers, e)
  {
    assert (es + [e])[..|es|] == es;
  }

  lemma LoadNothing(objects: seq<User>, before: seq<UserId>, haveUsers: bool)
    ensures LoadAll(objects, before, haveUsers, []) == Loaded(objects, [], [], [])
  {
  }

  class CommonUserList {
    var objects: seq<User>
    var users: seq<UserId>
    var haveUsers: bool

    constructor ()
      ensures objects == [] && users == [] && !haveUsers
    {
      objects, users, haveUsers := [], [], false;
    }

    /** `g_list_insert_sorted` by `compare_user`. */
    method Insert(ids: seq<UserId>, x: UserId) returns (r: seq<UserId>)
      ensures r == InsertSorted(objects, ids, x)
    {
      var k := 0;
      while k < |ids| && !Before(objects, x, ids[k])
        invariant 0 <= k <= |ids|
        invariant Place(objects, ids, x) == k + Place(objects, ids[k..], x)
      {
        assert ids[k..][1..] == ids[k + 1..];
        k := k + 1;
      }
      r := ids[..k] + [x] + ids[k..];
    }

    method FindOld(before: seq<UserId>, name: Text) returns (r: Option<UserId>)
      ensures r == Known(objects, before, name)
    {
      var i := 0;
      while i < |before|
        invariant 0 <= i <= |before| && Known(objects, before, name) == Known(objects, before[i..], name)
      {
        assert before[i..][1..] == before[i + 1..];
        if At(objects, before[i]).name == name {
          return Some(before[i]);
        }
        i := i + 1;
      }
      return None;
    }

    /** One turn of the loop: update or make the object of an entry, and list it. */
    method LoadEntry(before: seq<UserId>, e: Entry, l: seq<UserId>, a: seq<UserId>, c: seq<UserId>)
      returns (kept: seq<UserId>, added: seq<UserId>, changed: seq<UserId>)
      modifies `objects
      ensures Loaded(objects, kept, added, changed) == LoadOne(Loaded(old(objects), l, a, c), before, haveUsers, e)
    {
      hide InsertSorted;
      added, changed := a, c;
      var x: UserId;
      var known := FindOld(before, e.name);
      if known.Some? {
        x := known.value;
        var was := At(objects, x);
        objects := Put(objects, x, Updated(was, e));
        if At(objects, x) != was {
          changed := Insert(changed, x);
        }
      } else {
        x := |objects|;
        objects := objects + [Made(e)];
        if haveUsers {
          added := Insert(added, x);
        }
      }
      kept := Insert(l, x);
    }

    /** `load_passwd_file`: the new list, and the notices in the order in which they are given. */
    method LoadPasswdFile(settings: Settings, entries: seq<Entry>, emitAdded: bool)
      returns (notices: seq<Notice>, added: seq<UserId>, changed: seq<UserId>, removed: seq<UserId>)
      requires Within(objects, users) && Distinct(users) && DistinctNames(Shown(settings, entries))
      modifies `objects, `users
      ensures Faithful(old(objects), old(users), haveUsers, Shown(settings, entries), Loaded(objects, users, added, changed))
      ensures ByFields(old(objects), old(users), haveUsers, Shown(settings, entries), Loaded(objects, users, added, changed))
      ensures Distinct(removed) && forall x :: x in removed <==> x in old(users) && x !in users
      ensures notices == Notices(if emitAdded then added else [], changed, removed)
    {
      hide Faithful, ByFields, LoadOne, LoadAll, Notices;
      var before := users;
      var kept: seq<UserId> := [];
      added, changed := [], [];
      ghost var start := objects;
      LoadNothing(start, before, haveUsers);
      for i := 0 to |entries|
        invariant Loaded(objects, kept, added, changed) == LoadAll(start, before, haveUsers, Shown(settings, entries[..i]))
        invariant users == before
      {
        assert entries[..i + 1][..i] == entries[..i];
        assert Shown(settings, entries[..i]) + [] == Shown(settings, entries[..i]);
        if Accepted(settings, entries[i]) {
          LoadAllSnoc(start, before, haveUsers, Shown(settings, entries[..i]), entries[i]);
          kept, added, changed := LoadEntry(before, entries[i], kept, added, changed);
        }
      }
      assert entries[..|entries|] == entries;
      LoadAllFaithful(start, before, haveUsers, Shown(settings, entries));
      ReloadByFields(start, before, haveUsers, Shown(settings, entries), Loaded(objects, kept, added, changed));
      users := kept;
      removed := FindGone(before, kept);
      ApartFacts(before, kept);
      notices := Notices(if emitAdded then added else [], changed, removed);
    }

    /** The last loop: old objects that the new list does not hold. */
    method FindGone(before: seq<UserId>, now: seq<UserId>) returns (r: seq<UserId>)
      ensures r == Apart(before, now)
    {
      hide Apart;
      r := [];
      var i := 0;
      ApartEnds(before, now);
      while i < |before|
        invariant 0 <= i <= |before| && Apart(before, now) == r + Apart(before[i..], now)
      {
        ghost var rest := Apart(before[i + 1..], now);
        ApartStep(before, i, now);
        assert r + ([before[i]] + rest) == r + [before[i]] + rest && r + ([] + rest) == r + rest;
        if before[i] !in now {
          r := r + [before[i]];
        }
        i := i + 1;
      }
    }
  }
}
