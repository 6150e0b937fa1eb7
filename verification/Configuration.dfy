/**
  Layered configuration (common/configuration.c) and what a seat takes from it (src/lightdm.c,
  src/seat.c). A parsed file is its groups in order, each with its keys and values in order; the
  glob of a seat section is an uninterpreted predicate.
 */
module Configuration {
  import opened Octets
  import opened Lists

  const SEAT_DEFAULTS: Text := [83, 101, 97, 116, 68, 101, 102, 97, 117, 108, 116, 115]
  const SEAT_ANY: Text := [83, 101, 97, 116, 58, 42]
  const SEAT_PREFIX: Text := [83, 101, 97, 116, 58]
  const CONF: Text := [46, 99, 111, 110, 102]
  const BRACKET: octet := 93

  datatype Pair = Pair(key: Text, value: Text)

  datatype Group = Group(name: Text, pairs: seq<Pair>)

  datatype File = File(name: Text, path: Text, groups: seq<Group>)

  /** A group name holds no bracket. */
  predicate Plain(g: Text) {
    BRACKET !in g
  }

  predicate Parsed(f: File) {
    forall g <- f.groups :: Plain(g.name)
  }

  /** [SeatDefaults] is read as [Seat:*]. */
  function Canonical(g: Text): Text {
    if g == SEAT_DEFAULTS then SEAT_ANY else g
  }

  /** The key under which the source of a value is recorded. */
  function Joined(group: Text, key: Text): Text {
    group + [BRACKET] + key
  }

  lemma JoinedHead(g: Text, k: Text)
    requires Plain(g)
    ensures Joined(g, k)[0] == BRACKET <==> g == []
    ensures g != [] ==> Joined(g, k)[0] == g[0] && Joined(g, k)[1..] == Joined(g[1..], k)
    ensures g == [] ==> Joined(g, k)[1..] == k
  {
    if g != [] {
      assert g[0] in g;
    }
  }

  lemma {:induction false} JoinedInjective(g: Text, k: Text, h: Text, l: Text)
    requires Plain(g) && Plain(h) && Joined(g, k) == Joined(h, l)
    ensures g == h && k == l
    decreases |g|
  {
    hide Joined;
    JoinedHead(g, k);
    JoinedHead(h, l);
    if g != [] {
      JoinedInjective(g[1..], k, h[1..], l);
      assert g == [g[0]] + g[1..] && h == [h[0]] + h[1..];
    }
  }

  // ------------------------------------------------------------------ loading

  /** One assignment as it takes effect. */
  datatype Assignment = Assignment(group: Text, key: Text, value: Text, source: Text)

  datatype Store = Store(values: map<(Text, Text), Text>, sources: map<Text, Text>, groups: seq<Text>)

  function Assign(s: Store, a: Assignment): Store {
    Store(s.values[(a.group, a.key) := a.value], s.sources[Joined(a.group, a.key) := a.source],
          if a.group in s.groups then s.groups else s.groups + [a.group])
  }

  function AssignAll(s: Store, h: seq<Assignment>): (t: Store) {
    if h == [] then s else Assign(AssignAll(s, h[..|h| - 1]), h[|h| - 1])
  }

  function OfPairs(group: Text, pairs: seq<Pair>, path: Text): (h: seq<Assignment>)
    ensures |h| == |pairs|
    ensures forall i :: 0 <= i < |h| ==> h[i] == Assignment(Canonical(group), pairs[i].key, pairs[i].value, path)
  {
    seq(|pairs|, i requires 0 <= i < |pairs| => Assignment(Canonical(group), pairs[i].key, pairs[i].value, path))
  }

  function OfGroups(groups: seq<Group>, path: Text): (h: seq<Assignment>) {
    if groups == [] then []
    else OfGroups(groups[..|groups| - 1], path) + OfPairs(groups[|groups| - 1].name, groups[|groups| - 1].pairs, path)
  }

  /** The assignments of a file, in order. */
  function OfFile(f: File): (h: seq<Assignment>) {
    OfGroups(f.groups, f.path)
  }

  function OfFiles(fs: seq<File>): (h: seq<Assignment>) {
    Cat(OfFile, fs)
  }

  lemma {:induction false} AssignAllAppend(s: Store, h: seq<Assignment>, more: seq<Assignment>)
    ensures AssignAll(s, h + more) == AssignAll(AssignAll(s, h), more)
    decreases |more|
  {
    hide AssignAll, Assign;
    if more == [] {
      assert h + more == h;
      AssignNothing(AssignAll(s, h));
    } else {
      var n := |more| - 1;
      assert h + more == (h + more[..n]) + [more[n]] && more == more[..n] + [more[n]];
      AssignAllSnoc(s, h + more[..n], more[n]);
      AssignAllSnoc(AssignAll(s, h), more[..n], more[n]);
      AssignAllAppend(s, h, more[..n]);
    }
  }

  /** The configuration object: the key file, and the table of sources. */
  class Config {
    var values: map<(Text, Text), Text>
    var sources: map<Text, Text>
    var groups: seq<Text>

    ghost function View(): Store
      reads this
    {
      Store(values, sources, groups)
    }

    constructor ()
      ensures View() == Store(map[], map[], [])
    {
      values, sources, groups := map[], map[], [];
    }

    method SetValue(group: Text, key: Text, value: Text, path: Text)
      modifies this
      ensures View() == Assign(old(View()), Assignment(group, key, value, path))
    {
      if group !in groups {
        groups := groups + [group];
      }
      values := values[(group, key) := value];
      sources := sources[Joined(group, key) := path];
    }

    /** The inner loop: the keys of one group. */
    method LoadGroup(g: Group, path: Text)
      modifies this
      ensures View() == AssignAll(old(View()), OfPairs(g.name, g.pairs, path))
    {
      hide Assign, AssignAll;
      ghost var start, all := View(), OfPairs(g.name, g.pairs, path);
      var group := if g.name == SEAT_DEFAULTS then SEAT_ANY else g.name;
      AssignNothing(start);
      assert all[..0] == [];
      for j := 0 to |g.pairs|
        invariant View() == AssignAll(start, all[..j])
      {
        assert all[..j + 1] == all[..j] + [all[j]];
        AssignAllSnoc(start, all[..j], all[j]);
        SetValue(group, g.pairs[j].key, g.pairs[j].value, path);
      }
      assert all[..|g.pairs|] == all;
    }

    /** `config_load_from_file`. */
    method LoadFromFile(f: File)
      modifies this
      ensures View() == AssignAll(old(View()), OfFile(f))
    {
      hide AssignAll, OfPairs;
      ghost var start := View();
      AssignNothing(start);
      for i := 0 to |f.groups|
        invariant View() == AssignAll(start, OfGroups(f.groups[..i], f.path))
      {
        assert f.groups[..i + 1][..i] == f.groups[..i];
        AssignAllAppend(start, OfGroups(f.groups[..i], f.path), OfPairs(f.groups[i].name, f.groups[i].pairs, f.path));
        LoadGroup(f.groups[i], f.path);
      }
      assert f.groups[..|f.groups|] == f.groups;
    }

    /** `load_config_directory`: the names sorted, those without the suffix skipped. */
    method LoadDirectory(dir: seq<File>)
      modifies this
      ensures View() == AssignAll(old(View()), OfFiles(Loads(dir)))
    {
      hide AssignAll, OfFile;
      var files := Sort(dir);
      ghost var start := View();
      AssignNothing(start);
      assert files[..0] == [];
      for i := 0 to |files|
        invariant View() == AssignAll(start, OfFiles(Suffixed(files[..i])))
      {
        assert files[..i + 1][..i] == files[..i];
        assert Suffixed(files[..i]) + [] == Suffixed(files[..i]);
        if HasSuffix(files[i].name) {
          CatSnoc(OfFile, Suffixed(files[..i]), files[i]);
          AssignAllAppend(start, OfFiles(Suffixed(files[..i])), OfFile(files[i]));
          LoadFromFile(files[i]);
        }
      }
      assert files[..|files|] == files;
    }

    /** `load_config_directories`: the last directory first. */
    method LoadDirectories(dirs: seq<seq<File>>)
      modifies this
      ensures View() == AssignAll(old(View()), OfDirectories(dirs))
    {
      hide AssignAll, OfFiles, Loads;
      ghost var start := View();
      AssignNothing(start);
      var i := |dirs|;
      while i > 0
        invariant 0 <= i <= |dirs| && View() == AssignAll(start, OfDirectories(dirs[i..]))
      {
        i := i - 1;
        assert dirs[i..][1..] == dirs[i + 1..] && dirs[i..][0] == dirs[i];
        AssignAllAppend(start, OfDirectories(dirs[i + 1..]), OfFiles(Loads(dirs[i])));
        LoadDirectory(dirs[i]);
      }
      assert dirs[0..] == dirs;
    }

    /** `config_load_from_standard_locations`; a file that does not load is left out. */
    method LoadStandard(dataDirs: seq<seq<File>>, configDirs: seq<seq<File>>, confD: seq<File>, explicitPath: bool, main: Option<File>)
      modifies this
      ensures View() == AssignAll(old(View()), Standard(dataDirs, configDirs, confD, explicitPath, main))
      ensures old(View()) == EMPTY && StandardParsed(dataDirs, configDirs, confD, main) ==>
                forall group, key :: Plain(group) ==>
                  Holds(View(), group, key, Deciding(dataDirs, configDirs, confD, explicitPath, main, group, key))
    {
      hide AssignAll, OfDirectories, OfFiles, Loads, OfFile, StandardParsed, Holds, Deciding;
      ghost var start := View();
      ghost var a := OfDirectories(dataDirs);
      ghost var b := OfDirectories(configDirs);
      ghost var c := if explicitPath then [] else OfFiles(Loads(confD));
      LoadDirectories(dataDirs);
      LoadDirectories(configDirs);
      AssignAllAppend(start, a, b);
      AssignAllAppend(start, a + b, c);
      AssignNothing(View());
      if !explicitPath {
        LoadDirectory(confD);
      }
      if main.Some? {
        AssignAllAppend(start, a + b + c, OfFile(main.value));
        LoadFromFile(main.value);
      } else {
        assert a + b + c + [] == a + b + c;
      }
      if start == EMPTY && StandardParsed(dataDirs, configDirs, confD, main) {
        forall group, key | Plain(group)
          ensures Holds(View(), group, key, Deciding(dataDirs, configDirs, confD, explicitPath, main, group, key))
        {
          StandardDecides(dataDirs, configDirs, confD, explicitPath, main, group, key);
        }
      }
    }
  }

  lemma AssignAllSnoc(s: Store, h: seq<Assignment>, a: Assignment)
    ensures AssignAll(s, h + [a]) == Assign(AssignAll(s, h), a)
  {
    assert (h + [a])[..|h|] == h;
  }

  lemma AssignNothing(s: Store)
    ensures AssignAll(s, []) == s
  {
  }

  // ------------------------------------------------------------------ directories

  predicate HasSuffix(name: Text) {
    |name| >= 5 && name[|name| - 5..] == CONF
  }

  function Suffixed(fs: seq<File>): seq<File> {
    if fs == [] then [] else Suffixed(fs[..|fs| - 1]) + if HasSuffix(fs[|fs| - 1].name) then [fs[|fs| - 1]] else []
  }

  function InsertFile(fs: seq<File>, f: File): seq<File> {
    if fs == [] || Leq(f.name, fs[0].name) then [f] + fs else [fs[0]] + InsertFile(fs[1..], f)
  }

  function Sort(fs: seq<File>): seq<File> {
    if fs == [] then [] else InsertFile(Sort(fs[1..]), fs[0])
  }

  /** The files of a directory that are loaded, in the order in which they are. */
  function Loads(dir: seq<File>): seq<File> {
    Suffixed(Sort(dir))
  }

  /** Directories are in order of preference and load from the last to the first. */
  function OfDirectories(dirs: seq<seq<File>>): (h: seq<Assignment>) {
    if dirs == [] then [] else OfDirectories(dirs[1..]) + OfFiles(Loads(dirs[0]))
  }

  function Standard(dataDirs: seq<seq<File>>, configDirs: seq<seq<File>>, confD: seq<File>, explicitPath: bool, main: Option<File>): seq<Assignment> {
    OfDirectories(dataDirs) + OfDirectories(configDirs) + (if explicitPath then [] else OfFiles(Loads(confD)))
    + if main.Some? then OfFile(main.value) else []
  }

  ghost predicate InOrder(fs: seq<File>) {
    forall i, j :: 0 <= i < j < |fs| ==> Leq(fs[i].name, fs[j].name)
  }

  lemma {:induction false} InsertFileFacts(fs: seq<File>, f: File)
    ensures multiset(InsertFile(fs, f)) == multiset(fs) + multiset{f}
    ensures InOrder(fs) ==> InOrder(InsertFile(fs, f))
    decreases |fs|
  {
    hide Leq, InOrder;
    if fs == [] {
      OneInOrder(f);
      assert [f] + [] == [f];
    } else if Leq(f.name, fs[0].name) {
      if InOrder(fs) {
        HeadInOrder(f, fs);
      }
    } else {
      InsertFileFacts(fs[1..], f);
      assert fs == [fs[0]] + fs[1..];
      if InOrder(fs) {
        LeqTotal(f.name, fs[0].name);
        PutHeadBack(fs, f, InsertFile(fs[1..], f));
      }
    }
  }

  lemma OneInOrder(f: File)
    ensures InOrder([f])
  {
  }

  lemma HeadInOrder(f: File, fs: seq<File>)
    requires InOrder(fs) && fs != [] && Leq(f.name, fs[0].name)
    ensures InOrder([f] + fs)
  {
    hide Leq;
    forall j | 0 <= j < |fs| ensures Leq(f.name, fs[j].name) {
      if j > 0 {
        LeqTransitive(f.name, fs[0].name, fs[j].name);
      }
    }
  }

  /** The head of an ordered list before the rest of it with a file inserted. */
  lemma PutHeadBack(fs: seq<File>, f: File, rest: seq<File>)
    requires InOrder(fs) && fs != [] && Leq(fs[0].name, f.name) && multiset(rest) == multiset(fs[1..]) + multiset{f}
    requires InOrder(fs[1..]) ==> InOrder(rest)
    ensures InOrder([fs[0]] + rest)
  {
    hide Leq;
    assert InOrder(fs[1..]);
    forall j | 0 <= j < |rest| ensures Leq(fs[0].name, rest[j].name) {
      assert rest[j] in multiset(rest);
      if rest[j] != f {
        assert rest[j] in fs[1..];
        var i :| 0 <= i < |fs[1..]| && fs[1..][i] == rest[j];
        assert fs[i + 1] == rest[j];
      }
    }
  }

  lemma {:induction false} SortFacts(fs: seq<File>)
    ensures multiset(Sort(fs)) == multiset(fs) && InOrder(Sort(fs))
    decreases |fs|
  {
    if fs != [] {
      SortFacts(fs[1..]);
      InsertFileFacts(Sort(fs[1..]), fs[0]);
      assert fs == [fs[0]] + fs[1..];
    }
  }

  ghost predicate NamesDiffer(fs: seq<File>) {
    forall f, g :: f in fs && g in fs && f.name == g.name ==> f == g
  }

  /** The first of two orderings of the same files is the same file. */
  lemma SameHead(a: seq<File>, b: seq<File>)
    requires InOrder(a) && InOrder(b) && multiset(a) == multiset(b) && NamesDiffer(a) && a != [] && b != []
    ensures a[0] == b[0]
  {
    hide Leq;
    assert a[0] in multiset(a) && b[0] in multiset(b);
    assert a[0] in b && b[0] in a;
    var i :| 0 <= i < |b| && b[i] == a[0];
    var j :| 0 <= j < |a| && a[j] == b[0];
    LeqTotal(a[0].name, a[0].name);
    LeqTotal(b[0].name, b[0].name);
    assert Leq(a[0].name, a[j].name) && Leq(b[0].name, b[i].name);
    LeqAntisymmetric(a[0].name, b[0].name);
  }

  /** Two orderings of the same files, both by name, are the same. */
  lemma {:induction false} InOrderUnique(a: seq<File>, b: seq<File>)
    requires InOrder(a) && InOrder(b) && multiset(a) == multiset(b) && NamesDiffer(a)
    ensures a == b
    decreases |a|
  {
    hide Leq, InOrder, NamesDiffer;
    assert |a| == |multiset(a)| == |multiset(b)| == |b|;
    if a != [] {
      SameHead(a, b);
      TailFacts(a);
      TailFacts(b);
      InOrderUnique(a[1..], b[1..]);
    }
  }

  lemma TailFacts(a: seq<File>)
    requires InOrder(a) && a != []
    ensures InOrder(a[1..]) && a == [a[0]] + a[1..] && multiset(a[1..]) == multiset(a) - multiset{a[0]}
    ensures NamesDiffer(a) ==> NamesDiffer(a[1..])
  {
    hide Leq;
    assert a == [a[0]] + a[1..];
    assert forall f <- a[1..] :: f in a;
  }

  /** The order in which a directory is read makes no difference. */
  lemma DirectoryOrderIrrelevant(dir: seq<File>, other: seq<File>)
    requires multiset(dir) == multiset(other) && NamesDiffer(dir)
    ensures Loads(dir) == Loads(other)
  {
    SortFacts(dir);
    SortFacts(other);
    forall f <- Sort(dir) ensures f in dir {
      assert f in multiset(Sort(dir)) && f in multiset(dir);
    }
    InOrderUnique(Sort(dir), Sort(other));
  }

  // ------------------------------------------------------------------ the last assignment wins

  /** The last assignment to a key. */
  function Last(h: seq<Assignment>, group: Text, key: Text): (r: Option<Assignment>)
    ensures r.Some? ==> r.value in h && r.value.group == group && r.value.key == key
    ensures r.None? <==> forall a <- h :: !(a.group == group && a.key == key)
  {
    if h == [] then None
    else
      var a := h[|h| - 1];
      if a.group == group && a.key == key then Some(a) else Last(h[..|h| - 1], group, key)
  }

  lemma LastSnoc(h: seq<Assignment>, a: Assignment, group: Text, key: Text)
    ensures Last(h + [a], group, key) == if a.group == group && a.key == key then Some(a) else Last(h, group, key)
    ensures Last([], group, key) == None
  {
    assert (h + [a])[..|h|] == h;
  }

  lemma {:induction false} LastAppend(h: seq<Assignment>, more: seq<Assignment>, group: Text, key: Text)
    ensures Last(h + more, group, key) == if Last(more, group, key).Some? then Last(more, group, key) else Last(h, group, key)
    decreases |more|
  {
    hide Last;
    if more == [] {
      assert h + more == h;
    } else {
      var n := |more| - 1;
      assert h + more == (h + more[..n]) + [more[n]] && more == more[..n] + [more[n]];
      LastSnoc(h + more[..n], more[n], group, key);
      LastSnoc(more[..n], more[n], group, key);
      LastAppend(h, more[..n], group, key);
    }
  }

  predicate AllPlain(h: seq<Assignment>) {
    forall a <- h :: Plain(a.group)
  }

  const EMPTY := Store(map[], map[], [])

  /** The value and the source that are stored for a key are those of an assignment; without one there are none. */
  predicate Holds(s: Store, group: Text, key: Text, last: Option<Assignment>) {
    if last.Some?
    then (group, key) in s.values && s.values[(group, key)] == last.value.value
         && Joined(group, key) in s.sources && s.sources[Joined(group, key)] == last.value.source
    else (group, key) !in s.values && Joined(group, key) !in s.sources
  }

  /**
    For every sequence of assignments each key's stored value and recorded source are those of
    its last assignment, and a key that is never assigned has neither.
   */
  lemma {:induction false} LastWins(h: seq<Assignment>, group: Text, key: Text)
    requires AllPlain(h) && Plain(group)
    ensures Holds(AssignAll(EMPTY, h), group, key, Last(h, group, key))
    decreases |h|
  {
    hide Joined;
    if h != [] {
      var n := |h| - 1;
      LastWins(h[..n], group, key);
      var a := h[n];
      if Joined(a.group, a.key) == Joined(group, key) {
        JoinedInjective(a.group, a.key, group, key);
      }
    }
  }

  lemma {:induction false} GroupsPlain(groups: seq<Group>, path: Text)
    requires forall g <- groups :: Plain(g.name)
    ensures AllPlain(OfGroups(groups, path))
    decreases |groups|
  {
    if groups != [] {
      var n := |groups| - 1;
      GroupsPlain(groups[..n], path);
      assert groups[n] in groups && Plain(SEAT_ANY);
      forall a <- OfGroups(groups, path) ensures Plain(a.group) {
        if a !in OfGroups(groups[..n], path) {
          var h := OfPairs(groups[n].name, groups[n].pairs, path);
          var i :| 0 <= i < |h| && h[i] == a;
        }
      }
    }
  }

  lemma PlainAppend(h: seq<Assignment>, more: seq<Assignment>)
    requires AllPlain(h) && AllPlain(more)
    ensures AllPlain(h + more)
  {
  }

  predicate AllParsed(fs: seq<File>) {
    forall f <- fs :: Parsed(f)
  }

  lemma {:induction false} FilesPlain(fs: seq<File>)
    requires AllParsed(fs)
    ensures AllPlain(OfFiles(fs))
    decreases |fs|
  {
    hide OfFile, AllPlain;
    NothingPlain();
    if fs != [] {
      assert fs[0] in fs;
      GroupsPlain(fs[0].groups, fs[0].path);
      assert AllPlain(OfFile(fs[0])) by { FileIs(fs[0]); }
      FilesPlain(fs[1..]);
      PlainAppend(OfFile(fs[0]), OfFiles(fs[1..]));
    }
  }

  lemma NothingPlain()
    ensures AllPlain([])
  {
  }

  lemma FileIs(f: File)
    ensures OfFile(f) == OfGroups(f.groups, f.path)
  {
  }

  lemma {:induction false} SuffixedIn(fs: seq<File>)
    ensures forall f <- Suffixed(fs) :: f in fs
    decreases |fs|
  {
    if fs != [] {
      SuffixedIn(fs[..|fs| - 1]);
    }
  }

  lemma DirectoryPlain(dir: seq<File>)
    requires AllParsed(dir)
    ensures AllPlain(OfFiles(Loads(dir)))
  {
    hide OfFiles, Parsed;
    SortFacts(dir);
    SuffixedIn(Sort(dir));
    forall f <- Loads(dir) ensures Parsed(f) {
      assert f in multiset(Sort(dir)) && f in multiset(dir);
    }
    FilesPlain(Loads(dir));
  }

  lemma {:induction false} DirectoriesPlain(dirs: seq<seq<File>>)
    requires forall dir <- dirs :: AllParsed(dir)
    ensures AllPlain(OfDirectories(dirs))
    decreases |dirs|
  {
    hide AllPlain, AllParsed, OfFiles, Loads;
    NothingPlain();
    if dirs != [] {
      assert dirs[0] in dirs;
      DirectoryPlain(dirs[0]);
      DirectoriesPlain(dirs[1..]);
      PlainAppend(OfDirectories(dirs[1..]), OfFiles(Loads(dirs[0])));
    }
  }

  /** Every file in the standard locations is a parsed one. */
  predicate StandardParsed(dataDirs: seq<seq<File>>, configDirs: seq<seq<File>>, confD: seq<File>, main: Option<File>) {
    && (forall dir <- dataDirs :: AllParsed(dir)) && (forall dir <- configDirs :: AllParsed(dir)) && AllParsed(confD)
    && (main.Some? ==> Parsed(main.value))
  }

  lemma StandardPlain(dataDirs: seq<seq<File>>, configDirs: seq<seq<File>>, confD: seq<File>, explicitPath: bool, main: Option<File>)
    requires StandardParsed(dataDirs, configDirs, confD, main)
    ensures AllPlain(Standard(dataDirs, configDirs, confD, explicitPath, main))
  {
    hide AllPlain, AllParsed, OfDirectories, OfFiles, Loads, OfFile;
    NothingPlain();
    DirectoriesPlain(dataDirs);
    DirectoriesPlain(configDirs);
    DirectoryPlain(confD);
    var a, b := OfDirectories(dataDirs), OfDirectories(configDirs);
    var c := if explicitPath then [] else OfFiles(Loads(confD));
    var d := if main.Some? then OfFile(main.value) else [];
    if main.Some? {
      GroupsPlain(main.value.groups, main.value.path);
      FileIs(main.value);
    }
    PlainAppend(a, b);
    PlainAppend(a + b, c);
    PlainAppend(a + b + c, d);
  }

  /** The assignment that decides a key: of the main file, its directory, a configuration or a data directory, in that order. */
  function Deciding(dataDirs: seq<seq<File>>, configDirs: seq<seq<File>>, confD: seq<File>, explicitPath: bool, main: Option<File>,
                    group: Text, key: Text): Option<Assignment> {
    var own := if main.Some? then Last(OfFile(main.value), group, key) else None;
    var beside := if explicitPath then None else Last(OfFiles(Loads(confD)), group, key);
    var config := Last(OfDirectories(configDirs), group, key);
    if own.Some? then own else if beside.Some? then beside
    else if config.Some? then config else Last(OfDirectories(dataDirs), group, key)
  }

  /** For every set of parsed files: what is stored for a key after loading is what the deciding assignment says. */
  lemma StandardDecides(dataDirs: seq<seq<File>>, configDirs: seq<seq<File>>, confD: seq<File>, explicitPath: bool, main: Option<File>,
                        group: Text, key: Text)
    requires StandardParsed(dataDirs, configDirs, confD, main) && Plain(group)
    ensures Holds(AssignAll(EMPTY, Standard(dataDirs, configDirs, confD, explicitPath, main)), group, key,
                  Deciding(dataDirs, configDirs, confD, explicitPath, main, group, key))
  {
    hide AssignAll, Last, Standard, OfDirectories, OfFiles, Loads, OfFile, Holds, StandardParsed, AllPlain;
    StandardPlain(dataDirs, configDirs, confD, explicitPath, main);
    LastWins(Standard(dataDirs, configDirs, confD, explicitPath, main), group, key);
    StandardPrecedence(dataDirs, configDirs, confD, explicitPath, main, group, key);
  }

  /** A directory sets a key. */
  predicate Sets(dir: seq<File>, group: Text, key: Text) {
    Last(OfFiles(Loads(dir)), group, key).Some?
  }

  /** Among directories the first that sets a key wins, whatever those behind it say. */
  lemma {:induction false} EarlierDirectoryWins(dirs: seq<seq<File>>, i: nat, group: Text, key: Text)
    requires i < |dirs| && Sets(dirs[i], group, key) && forall j :: 0 <= j < i ==> !Sets(dirs[j], group, key)
    ensures Last(OfDirectories(dirs), group, key) == Last(OfFiles(Loads(dirs[i])), group, key)
    decreases |dirs|
  {
    hide Last, OfFiles, Loads;
    LastAppend(OfDirectories(dirs[1..]), OfFiles(Loads(dirs[0])), group, key);
    if i > 0 {
      assert !Sets(dirs[0], group, key) && dirs[1..][i - 1] == dirs[i];
      EarlierDirectoryWins(dirs[1..], i - 1, group, key);
    }
  }

  /** The main file, then its directory, then the configuration directories, then the data directories. */
  lemma StandardPrecedence(dataDirs: seq<seq<File>>, configDirs: seq<seq<File>>, confD: seq<File>, explicitPath: bool, main: Option<File>,
                           group: Text, key: Text)
    ensures Last(Standard(dataDirs, configDirs, confD, explicitPath, main), group, key)
            == Deciding(dataDirs, configDirs, confD, explicitPath, main, group, key)
  {
    hide OfDirectories, OfFiles, Loads, OfFile, Last;
    var a, b := OfDirectories(dataDirs), OfDirectories(configDirs);
    var c := if explicitPath then [] else OfFiles(Loads(confD));
    var d := if main.Some? then OfFile(main.value) else [];
    LastAppend(a + b + c, d, group, key);
    LastAppend(a + b, c, group, key);
    LastAppend(a, b, group, key);
    LastNothing(group, key);
  }

  lemma LastNothing(group: Text, key: Text)
    ensures Last([], group, key) == None
  {
  }

  /** No assignment is to the deprecated group. */
  ghost predicate NoDefaults(h: seq<Assignment>) {
    forall a <- h :: a.group != SEAT_DEFAULTS
  }

  lemma {:induction false} GroupsNoDefaults(groups: seq<Group>, path: Text)
    ensures NoDefaults(OfGroups(groups, path))
    decreases |groups|
  {
    if groups != [] {
      var n := |groups| - 1;
      GroupsNoDefaults(groups[..n], path);
      assert |SEAT_ANY| != |SEAT_DEFAULTS|;
    }
  }

  lemma {:induction false} FilesNoDefaults(fs: seq<File>)
    ensures NoDefaults(OfFiles(fs))
    decreases |fs|
  {
    if fs != [] {
      FilesNoDefaults(fs[1..]);
      GroupsNoDefaults(fs[0].groups, fs[0].path);
      assert OfFiles(fs) == OfFile(fs[0]) + OfFiles(fs[1..]);
    }
  }

  lemma {:induction false} DirectoriesNoDefaults(dirs: seq<seq<File>>)
    ensures NoDefaults(OfDirectories(dirs))
    decreases |dirs|
  {
    hide Loads, OfFiles;
    if dirs != [] {
      DirectoriesNoDefaults(dirs[1..]);
      FilesNoDefaults(Loads(dirs[0]));
    }
  }

  lemma {:induction false} NoDefaultsLast(h: seq<Assignment>, key: Text)
    requires NoDefaults(h)
    ensures Last(h, SEAT_DEFAULTS, key) == None
    decreases |h|
  {
    if h != [] {
      assert h[|h| - 1] in h;
      NoDefaultsLast(h[..|h| - 1], key);
    }
  }

  /** The last assignment that a group of a file makes to a key. */
  function LastPair(pairs: seq<Pair>, key: Text): (r: Option<Text>) {
    if pairs == [] then None
    else if pairs[|pairs| - 1].key == key then Some(pairs[|pairs| - 1].value) else LastPair(pairs[..|pairs| - 1], key)
  }

  lemma {:induction false} PairsLast(name: Text, pairs: seq<Pair>, path: Text, key: Text)
    ensures var p := LastPair(pairs, key);
            Last(OfPairs(name, pairs, path), Canonical(name), key)
            == if p.Some? then Some(Assignment(Canonical(name), key, p.value, path)) else None
    decreases |pairs|
  {
    var h := OfPairs(name, pairs, path);
    if pairs != [] {
      var n := |pairs| - 1;
      PairsLast(name, pairs[..n], path, key);
      assert h[..n] == OfPairs(name, pairs[..n], path);
    }
  }

  /**
    For every set of files nothing is ever assigned under [SeatDefaults], in any group of any
    file: every key of it stays without a value.
   */
  lemma DefaultsAreAny(dataDirs: seq<seq<File>>, configDirs: seq<seq<File>>, confD: seq<File>, explicitPath: bool, main: Option<File>,
                       key: Text)
    ensures NoDefaults(Standard(dataDirs, configDirs, confD, explicitPath, main))
    ensures Last(Standard(dataDirs, configDirs, confD, explicitPath, main), SEAT_DEFAULTS, key) == None
  {
    hide OfDirectories, OfFiles, Loads, Last;
    DirectoriesNoDefaults(dataDirs);
    DirectoriesNoDefaults(configDirs);
    FilesNoDefaults(Loads(confD));
    if main.Some? {
      GroupsNoDefaults(main.value.groups, main.value.path);
    }
    NoDefaultsLast(Standard(dataDirs, configDirs, confD, explicitPath, main), key);
  }

  /** What a file says under [SeatDefaults] is said under [Seat:*], over all that was loaded or said before. */
  lemma DefaultsDecide(h: seq<Assignment>, f: File, pairs: seq<Pair>, key: Text)
    requires f.groups != [] && f.groups[|f.groups| - 1] == Group(SEAT_DEFAULTS, pairs) && LastPair(pairs, key).Some?
    ensures Last(h + OfFile(f), SEAT_ANY, key) == Some(Assignment(SEAT_ANY, key, LastPair(pairs, key).value, f.path))
  {
    hide Last, LastPair;
    var before, own := OfGroups(f.groups[..|f.groups| - 1], f.path), OfPairs(SEAT_DEFAULTS, pairs, f.path);
    PairsLast(SEAT_DEFAULTS, pairs, f.path, key);
    assert h + OfFile(f) == (h + before) + own;
    LastAppend(h + before, own, SEAT_ANY, key);
  }

  /** The group that a file's group is stored under: its own name, but [Seat:*] for [SeatDefaults]. */
  function StoredAs(name: Text): Text {
    if name == [83, 101, 97, 116, 68, 101, 102, 97, 117, 108, 116, 115] then [83, 101, 97, 116, 58, 42] else name
  }

  /** A file assigns exactly what its groups say, each key under its group's stored name and with the file as its source. */
  lemma {:induction false} FileAssigns(groups: seq<Group>, path: Text, a: Assignment)
    ensures a in OfGroups(groups, path) <==>
              a.source == path && exists g <- groups :: a.group == StoredAs(g.name) && Pair(a.key, a.value) in g.pairs
    decreases |groups|
  {
    if groups != [] {
      var n := |groups| - 1;
      var g := groups[n];
      FileAssigns(groups[..n], path, a);
      assert groups == groups[..n] + [g];
      var h := OfPairs(g.name, g.pairs, path);
      assert a in h <==> a.source == path && a.group == StoredAs(g.name) && Pair(a.key, a.value) in g.pairs by {
        PairsAssign(g, path, a);
      }
    }
  }

  lemma PairsAssign(g: Group, path: Text, a: Assignment)
    ensures a in OfPairs(g.name, g.pairs, path) <==> a.source == path && a.group == StoredAs(g.name) && Pair(a.key, a.value) in g.pairs
  {
    var h := OfPairs(g.name, g.pairs, path);
    if a in h {
      var i :| 0 <= i < |h| && h[i] == a;
      assert g.pairs[i] == Pair(a.key, a.value);
    }
    if a.source == path && a.group == StoredAs(g.name) && Pair(a.key, a.value) in g.pairs {
      var i :| 0 <= i < |g.pairs| && g.pairs[i] == Pair(a.key, a.value);
      assert h[i] == a;
    }
  }

  /** Of a directory exactly the files named *.conf are loaded, each as often as it is there, in order of their names. */
  lemma LoadsExactly(dir: seq<File>, f: File)
    ensures var conf := |f.name| >= 5 && f.name[|f.name| - 5..] == [46, 99, 111, 110, 102];
            && multiset(Loads(dir))[f] == (if conf then multiset(dir)[f] else 0)
            && (f in Loads(dir) <==> f in dir && conf)
    ensures InOrder(Loads(dir))
  {
    SortFacts(dir);
    SuffixedCounts(Sort(dir), f);
    SuffixedInOrder(Sort(dir));
    assert f in dir <==> f in multiset(dir);
    assert f in Loads(dir) <==> f in multiset(Loads(dir));
  }

  lemma {:induction false} SuffixedCounts(fs: seq<File>, f: File)
    ensures multiset(Suffixed(fs))[f] ==
              if |f.name| >= 5 && f.name[|f.name| - 5..] == [46, 99, 111, 110, 102] then multiset(fs)[f] else 0
    decreases |fs|
  {
    if fs != [] {
      var n := |fs| - 1;
      SuffixedCounts(fs[..n], f);
      assert fs == fs[..n] + [fs[n]];
    }
  }

  lemma {:induction false} SuffixedInOrder(fs: seq<File>)
    requires InOrder(fs)
    ensures InOrder(Suffixed(fs)) && (fs != [] ==> forall f <- Suffixed(fs) :: Leq(f.name, fs[|fs| - 1].name))
    decreases |fs|
  {
    hide Leq;
    if fs != [] {
      var n := |fs| - 1;
      SuffixedInOrder(fs[..n]);
      LeqTotal(fs[n].name, fs[n].name);
      forall f <- Suffixed(fs[..n]) ensures Leq(f.name, fs[n].name) {
        SuffixedFrom(fs[..n], f);
        var i :| 0 <= i < n && fs[..n][i] == f;
        assert Leq(fs[i].name, fs[n].name);
      }
    }
  }

  lemma {:induction false} SuffixedFrom(fs: seq<File>, f: File)
    requires f in Suffixed(fs)
    ensures f in fs
    decreases |fs|
  {
    if f !in Suffixed(fs[..|fs| - 1]) {
      assert f == fs[|fs| - 1];
    } else {
      SuffixedFrom(fs[..|fs| - 1], f);
    }
  }

  /** The key file knows exactly the groups that were assigned to. */
  lemma {:induction false} GroupsSeen(h: seq<Assignment>, group: Text)
    ensures group in AssignAll(EMPTY, h).groups <==> exists a <- h :: a.group == group
    ensures Distinct(AssignAll(EMPTY, h).groups)
    decreases |h|
  {
    hide Joined;
    if h != [] {
      var n := |h| - 1;
      GroupsSeen(h[..n], group);
      GroupsSeen(h[..n], h[n].group);
      assert h == h[..n] + [h[n]];
      var groups := AssignAll(EMPTY, h[..n]).groups;
      if h[n].group !in groups {
        DistinctSnoc(groups, h[n].group);
      }
    }
  }

  // ------------------------------------------------------------------ what a seat takes

  predicate HasPrefix(t: Text, prefix: Text) {
    |prefix| <= |t| && t[..|prefix|] == prefix
  }

  /** The sections that apply to a seat, in order of the key file's groups. */
  function SeatSections(groups: seq<Text>, glob: Text -> bool): (r: seq<Text>) {
    if groups == [] then []
    else
      var g := groups[|groups| - 1];
      SeatSections(groups[..|groups| - 1], glob)
      + if HasPrefix(g, SEAT_PREFIX) && g != SEAT_ANY && glob(g[|SEAT_PREFIX|..]) then [g] else []
  }

  /** `get_config_sections`. */
  function Sections(groups: seq<Text>, glob: Text -> bool): seq<Text> {
    [SEAT_ANY] + SeatSections(groups, glob)
  }

  /** Exactly [Seat:*] and the groups Seat:<glob> whose glob matches; [Seat:*] is first, the others keep their order. */
  lemma {:induction false} SectionsExactly(groups: seq<Text>, glob: Text -> bool, g: Text)
    ensures g in SeatSections(groups, glob) <==>
              g in groups && |g| >= 5 && g[..5] == [83, 101, 97, 116, 58] && g != [83, 101, 97, 116, 58, 42] && glob(g[5..])
    ensures Sections(groups, glob)[0] == [83, 101, 97, 116, 58, 42] && Sections(groups, glob)[1..] == SeatSections(groups, glob)
    ensures forall k :: 0 <= k <= |groups| ==> SeatSections(groups[..k], glob) <= SeatSections(groups, glob)
    decreases |groups|
  {
    if groups == [] {
      assert groups[..0] == [];
    } else {
      var n := |groups| - 1;
      assert groups == groups[..n] + [groups[n]];
      SectionsExactly(groups[..n], glob, g);
      forall k | 0 <= k <= |groups| ensures SeatSections(groups[..k], glob) <= SeatSections(groups, glob) {
        if k <= n {
          assert groups[..n][..k] == groups[..k];
        } else {
          assert groups[..k] == groups;
        }
      }
    }
  }

  /** A key file as a seat reads it: the keys and values of a section. */
  type Reader = Text -> seq<Pair>

  function Overwrite(table: map<Text, Text>, pairs: seq<Pair>): map<Text, Text> {
    if pairs == [] then table else Overwrite(table, pairs[..|pairs| - 1])[pairs[|pairs| - 1].key := pairs[|pairs| - 1].value]
  }

  /** `set_seat_properties`: each section overwrites those before it. */
  function Properties(table: map<Text, Text>, read: Reader, sections: seq<Text>): map<Text, Text> {
    if sections == [] then table
    else Overwrite(Properties(table, read, sections[..|sections| - 1]), read(sections[|sections| - 1]))
  }

  /** The value of a key in a section, which holds a key once. */
  function ValueIn(pairs: seq<Pair>, key: Text): Option<Text> {
    if pairs == [] then None
    else if pairs[|pairs| - 1].key == key then Some(pairs[|pairs| - 1].value)
    else ValueIn(pairs[..|pairs| - 1], key)
  }

  /** The search from the last section back to the first that has the key. */
  function SearchBack(read: Reader, sections: seq<Text>, key: Text): Option<Text> {
    if sections == [] then None
    else
      var found := ValueIn(read(sections[|sections| - 1]), key);
      if found.Some? then found else SearchBack(read, sections[..|sections| - 1], key)
  }

  lemma {:induction false} OverwriteGets(table: map<Text, Text>, pairs: seq<Pair>, key: Text)
    ensures var found := ValueIn(pairs, key);
            if found.Some? then key in Overwrite(table, pairs) && Overwrite(table, pairs)[key] == found.value
            else (key in Overwrite(table, pairs) <==> key in table) && (key in table ==> Overwrite(table, pairs)[key] == table[key])
    decreases |pairs|
  {
    if pairs != [] {
      OverwriteGets(table, pairs[..|pairs| - 1], key);
    }
  }

  /** What forward overwriting leaves in a seat's table is what the backward search finds. */
  lemma {:induction false} SearchIsOverwrite(read: Reader, sections: seq<Text>, key: Text)
    ensures var table, found := Properties(map[], read, sections), SearchBack(read, sections, key);
            (found.Some? <==> key in table) && (found.Some? ==> table[key] == found.value)
    decreases |sections|
  {
    if sections != [] {
      var n := |sections| - 1;
      SearchIsOverwrite(read, sections[..n], key);
      OverwriteGets(Properties(map[], read, sections[..n]), read(sections[n]), key);
    }
  }

  /** The last pair with a key, in the last section that has one. */
  ghost predicate LastAt(read: Reader, sections: seq<Text>, key: Text, value: Text, i: nat, j: nat) {
    && i < |sections| && j < |read(sections[i])| && read(sections[i])[j] == Pair(key, value)
    && (forall k :: j < k < |read(sections[i])| ==> read(sections[i])[k].key != key)
    && (forall l :: i < l < |sections| ==> Lacks(read(sections[l]), key))
  }

  ghost predicate Lacks(pairs: seq<Pair>, key: Text) {
    forall k :: 0 <= k < |pairs| ==> pairs[k].key != key
  }

  /** A key has the value of the last pair with that key in the last section that has it, and no value if none does. */
  lemma {:induction false} LastPairWins(read: Reader, sections: seq<Text>, key: Text)
    ensures var table := Properties(map[], read, sections);
            if key in table then exists i: nat, j: nat :: LastAt(read, sections, key, table[key], i, j)
            else forall i :: 0 <= i < |sections| ==> Lacks(read(sections[i]), key)
    decreases |sections|
  {
    hide LastAt, Overwrite;
    if sections != [] {
      var n := |sections| - 1;
      var before, pairs := Properties(map[], read, sections[..n]), read(sections[n]);
      LastPairWins(read, sections[..n], key);
      OverwriteIs(before, pairs, key);
      var table := Properties(map[], read, sections);
      if Lacks(pairs, key) {
        if key in before {
          var i: nat, j: nat :| LastAt(read, sections[..n], key, before[key], i, j);
          LastAtStill(read, sections, key, before[key], i, j);
        } else {
          forall i | 0 <= i < |sections| ensures Lacks(read(sections[i]), key) {
            assert i < n ==> sections[..n][i] == sections[i];
          }
        }
      } else {
        var j :| 0 <= j < |pairs| && pairs[j] == Pair(key, table[key]) && forall k :: j < k < |pairs| ==> pairs[k].key != key;
        LastAtEnd(read, sections, pairs, key, table[key], j);
      }
    }
  }

  lemma LastAtStill(read: Reader, sections: seq<Text>, key: Text, value: Text, i: nat, j: nat)
    requires sections != [] && LastAt(read, sections[..|sections| - 1], key, value, i, j) && Lacks(read(sections[|sections| - 1]), key)
    ensures LastAt(read, sections, key, value, i, j)
  {
    var n := |sections| - 1;
    forall l | i < l < |sections| ensures Lacks(read(sections[l]), key) {
      assert l < n ==> sections[..n][l] == sections[l];
    }
  }

  lemma LastAtEnd(read: Reader, sections: seq<Text>, pairs: seq<Pair>, key: Text, value: Text, j: nat)
    requires sections != [] && pairs == read(sections[|sections| - 1]) && j < |pairs| && pairs[j] == Pair(key, value)
    requires forall k :: j < k < |pairs| ==> pairs[k].key != key
    ensures LastAt(read, sections, key, value, |sections| - 1, j)
  {
  }

  /** The last pair with a key decides; without one the key stays as it was. */
  lemma {:induction false} OverwriteIs(table: map<Text, Text>, pairs: seq<Pair>, key: Text)
    ensures var t := Overwrite(table, pairs);
            if Lacks(pairs, key)
            then (key in t <==> key in table) && (key in table ==> t[key] == table[key])
            else key in t && exists j :: 0 <= j < |pairs| && pairs[j] == Pair(key, t[key]) && forall k :: j < k < |pairs| ==> pairs[k].key != key
    decreases |pairs|
  {
    if pairs != [] {
      var n := |pairs| - 1;
      OverwriteIs(table, pairs[..n], key);
      if pairs[n].key == key {
        assert pairs[n] == Pair(key, Overwrite(table, pairs)[key]);
      } else if !(forall k :: 0 <= k < n ==> pairs[k].key != key) {
        var t := Overwrite(table, pairs[..n]);
        var j :| 0 <= j < n && pairs[..n][j] == Pair(key, t[key]) && forall k :: j < k < n ==> pairs[..n][k].key != key;
        assert pairs[j] == Pair(key, t[key]);
        forall k | j < k < |pairs| ensures pairs[k].key != key {
          assert k < n ==> pairs[..n][k] == pairs[k];
        }
      }
    }
  }

  /** `get_config_sections`. */
  method GetSections(groups: seq<Text>, glob: Text -> bool) returns (sections: seq<Text>)
    ensures sections == Sections(groups, glob)
  {
    sections := [SEAT_ANY];
    assert groups[..0] == [] && sections == [SEAT_ANY] + [];
    for i := 0 to |groups|
      invariant sections == [SEAT_ANY] + SeatSections(groups[..i], glob)
    {
      var g := groups[i];
      assert groups[..i + 1][..i] == groups[..i];
      if HasPrefix(g, SEAT_PREFIX) && g != SEAT_ANY && glob(g[|SEAT_PREFIX|..]) {
        sections := sections + [g];
      }
    }
    assert groups[..|groups|] == groups;
  }

  /** `set_seat_properties` on a new seat. */
  method SetSeatProperties(read: Reader, sections: seq<Text>) returns (table: map<Text, Text>)
    ensures table == Properties(map[], read, sections)
  {
    table := map[];
    for i := 0 to |sections|
      invariant table == Properties(map[], read, sections[..i])
    {
      assert sections[..i + 1][..i] == sections[..i];
      ghost var start := table;
      var pairs := read(sections[i]);
      for j := 0 to |pairs|
        invariant table == Overwrite(start, pairs[..j])
      {
        assert pairs[..j + 1][..j] == pairs[..j];
        table := table[pairs[j].key := pairs[j].value];
      }
      assert pairs[..|pairs|] == pairs;
    }
    assert sections[..|sections|] == sections;
  }

  /** The search of `add_login1_seat`: it finds what a new seat's table will hold. */
  method FindType(read: Reader, sections: seq<Text>, key: Text) returns (found: Option<Text>)
    ensures var table := Properties(map[], read, sections);
            found == if key in table then Some(table[key]) else None
  {
    SearchIsOverwrite(read, sections, key);
    hide Properties;
    found := None;
    var k := |sections|;
    assert sections[..k] == sections;
    while k > 0 && found.None?
      invariant 0 <= k <= |sections|
      invariant SearchBack(read, sections, key) == if found.Some? then found else SearchBack(read, sections[..k], key)
    {
      assert sections[..k][..k - 1] == sections[..k - 1];
      k := k - 1;
      found := ValueIn(read(sections[k]), key);
    }
  }

  // ------------------------------------------------------------------ booleans

  predicate IsSpace(c: octet) {
    c == 32 || c == 12 || c == 10 || c == 13 || c == 9
  }

  const TRUE: Text := [116, 114, 117, 101]

  /** `g_strchomp`. */
  function Chomp(t: Text): Text {
    if t == [] || !IsSpace(t[|t| - 1]) then t else Chomp(t[..|t| - 1])
  }

  /** `config_get_boolean` on a value. */
  predicate ConfigTrue(t: Text) {
    Chomp(t) == TRUE
  }

  /** One past the last octet that is no space. */
  function SolidLength(t: Text): nat {
    if t == [] then 0 else if !IsSpace(t[|t| - 1]) then |t| else SolidLength(t[..|t| - 1])
  }

  /** `strncmp` of two C strings says that they are equal. */
  predicate SameFor(a: Text, b: Text, n: nat)
    decreases n
  {
    n == 0 || (a == [] && b == []) || (a != [] && b != [] && a[0] == b[0] && SameFor(a[1..], b[1..], n - 1))
  }

  /** `seat_get_boolean_property`: the loop that finds the length, then the comparison. */
  method SeatTrue(t: Text) returns (r: bool)
    ensures r == ConfigTrue(t)
  {
    var length := 0;
    for i := 0 to |t|
      invariant length == SolidLength(t[..i])
    {
      assert t[..i + 1][..i] == t[..i];
      if !IsSpace(t[i]) {
        length := i + 1;
      }
    }
    assert t[..|t|] == t;
    r := SameFor(t, TRUE, if length > 4 then length else 4);
    BooleansAgree(t);
  }

  lemma {:induction false} ChompIs(t: Text)
    ensures SolidLength(t) <= |t| && Chomp(t) == t[..SolidLength(t)]
    ensures forall i :: SolidLength(t) <= i < |t| ==> IsSpace(t[i])
    decreases |t|
  {
    if t != [] && IsSpace(t[|t| - 1]) {
      ChompIs(t[..|t| - 1]);
      assert t[..|t| - 1][..SolidLength(t)] == t[..SolidLength(t)];
    } else {
      assert t[..|t|] == t;
    }
  }

  /** Equal for `n` octets or to the end of both. */
  lemma {:induction false} SameForIs(a: Text, b: Text, n: nat)
    ensures SameFor(a, b, n) <==> if |a| >= n && |b| >= n then a[..n] == b[..n] else a == b
    decreases n
  {
    if n > 0 && a != [] && b != [] {
      SameForIs(a[1..], b[1..], n - 1);
      assert a == [a[0]] + a[1..] && b == [b[0]] + b[1..];
      if |a| >= n && |b| >= n {
        assert a[..n] == [a[0]] + a[1..][..n - 1] && b[..n] == [b[0]] + b[1..][..n - 1];
      }
    }
  }

  /** The two readers of booleans agree on every string. */
  lemma BooleansAgree(t: Text)
    ensures var length := SolidLength(t);
            SameFor(t, TRUE, if length > 4 then length else 4) <==> ConfigTrue(t)
  {
    var length := SolidLength(t);
    var n := if length > 4 then length else 4;
    ChompIs(t);
    SameForIs(t, TRUE, n);
    assert TRUE[..4] == TRUE;
    if |t| >= 4 && t[..4] == TRUE {
      assert t[3] == TRUE[3];
      assert length >= 4;
    }
  }

  /** True are exactly "true" and "true" followed by nothing but spaces, form feeds, newlines, carriage returns and tabs. */
  lemma TrueIs(t: Text)
    ensures ConfigTrue(t) <==>
              |t| >= 4 && t[..4] == [116, 114, 117, 101] && forall i :: 4 <= i < |t| ==> t[i] in {32, 12, 10, 13, 9}
  {
    ChompIs(t);
    ChompSolid(t);
    if ConfigTrue(t) {
      assert SolidLength(t) == 4;
    }
    if |t| >= 4 && t[..4] == [116, 114, 117, 101] && forall i :: 4 <= i < |t| ==> t[i] in {32, 12, 10, 13, 9} {
      assert t[3] == t[..4][3];
      assert SolidLength(t) == 4;
    }
  }

  lemma {:induction false} ChompSolid(t: Text)
    ensures SolidLength(t) <= |t| && (SolidLength(t) > 0 ==> !IsSpace(t[SolidLength(t) - 1]))
    decreases |t|
  {
    if t != [] && IsSpace(t[|t| - 1]) {
      ChompSolid(t[..|t| - 1]);
    }
  }
}
