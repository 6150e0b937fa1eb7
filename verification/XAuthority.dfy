/**
  Xauthority files (src/x-authority.c): the parser, the edit of the first matching record, the
  printer, and the file that is opened without being truncated. Octets are read through a signed
  `gchar`, so a low octet with its top bit set spreads into the high octet.
 */
module XAuthority {
  import opened Octets

  datatype Record = Record(family: u16, address: seq<octet>, number: Text, name: Text, data: seq<octet>)

  datatype Mode = Replace | Delete | Set

  datatype Read<+T> = Read(value: T, rest: seq<octet>)

  // ------------------------------------------------------------------ octets

  /** `data[offset] << 8 | data[offset + 1]` on signed octets, cut to 16 bits. */
  function Joined(high: octet, low: octet): (v: u16) {
    if low < 0x80 then high as int * 0x100 + low as int else 0xFF00 + low as int
  }

  /** What a 16-bit number comes back as. */
  function ReadBack(v: u16): u16 {
    Joined(v / 0x100, v % 0x100)
  }

  predicate Exact(v: u16) {
    v % 0x100 < 0x80 || v / 0x100 == 0xFF
  }

  /** Reading is exact for just the numbers whose low octet is under 0x80 or whose high octet is 0xFF. */
  lemma ReadBackExact(v: u16)
    ensures ReadBack(v) == v <==> Exact(v)
  {
  }

  function ReadUint16(b: seq<octet>): (r: Option<Read<u16>>) {
    if |b| < 2 then None else Some(Read(Joined(b[0], b[1]), b[2..]))
  }

  function ReadData(b: seq<octet>, n: nat): (r: Option<Read<seq<octet>>>) {
    if |b| < n then None else Some(Read(b[..n], b[n..]))
  }

  /** A length and as many octets. */
  function ReadBlock(b: seq<octet>): (r: Option<Read<seq<octet>>>)
    ensures r.Some? ==> |r.value.rest| + |r.value.value| + 2 == |b|
  {
    var n := ReadUint16(b);
    if n.None? then None else ReadData(n.value.rest, n.value.value)
  }

  /** The octets before the first NUL, which is all that the rest of the program sees of a string. */
  function CString(b: seq<octet>): (t: Text)
    ensures 0 !in t && |t| <= |b|
    ensures 0 !in b ==> t == b
  {
    if b == [] || b[0] == 0 then [] else [b[0]] + CString(b[1..])
  }

  function Block(b: seq<octet>): (r: seq<octet>) {
    Be16(|b| % U16) + b
  }

  // ------------------------------------------------------------------ records

  function Printed(r: Record): (b: seq<octet>) {
    Be16(r.family) + (Block(r.address) + (Block(r.number) + (Block(r.name) + Block(r.data))))
  }

  function Print(rs: seq<Record>): (b: seq<octet>) {
    Cat(Printed, rs)
  }

  function ParseOne(b: seq<octet>): (r: Option<Read<Record>>)
    ensures r.Some? ==> |r.value.rest| + 10 <= |b|
  {
    var family := ReadUint16(b);
    if family.None? then None
    else
      var address := ReadBlock(family.value.rest);
      if address.None? then None
      else
        var number := ReadBlock(address.value.rest);
        if number.None? then None
        else
          var name := ReadBlock(number.value.rest);
          if name.None? then None
          else
            var data := ReadBlock(name.value.rest);
            if data.None? then None
            else Some(Read(Record(family.value.value, address.value.value, CString(number.value.value),
                                  CString(name.value.value), data.value.value), data.value.rest))
  }

  /** Records until the input ends or one of them does not parse. */
  function Parse(b: seq<octet>): (rs: seq<Record>)
    ensures 10 * |rs| <= |b|
    decreases |b|
  {
    var one := ParseOne(b);
    if one.None? then [] else [one.value.value] + Parse(one.value.rest)
  }

  // ------------------------------------------------------------------ round trip

  /** Lengths that fit 16 bits, strings that are C strings. */
  predicate Printable(r: Record) {
    |r.address| < U16 && |r.number| < U16 && |r.name| < U16 && |r.data| < U16 && 0 !in r.number && 0 !in r.name
  }

  predicate Representable(r: Record)
    requires Printable(r)
  {
    Exact(r.family) && Exact(|r.address|) && Exact(|r.number|) && Exact(|r.name|) && Exact(|r.data|)
  }

  lemma Uint16At(v: u16, tail: seq<octet>)
    ensures ReadUint16(Be16(v) + tail) == Some(Read(ReadBack(v), tail))
  {
    assert (Be16(v) + tail)[2..] == tail;
  }

  /** A block is read whole exactly when its length is read exactly; otherwise a shorter or longer one is, or none. */
  lemma BlockAt(b: seq<octet>, tail: seq<octet>)
    requires |b| < U16
    ensures Exact(|b|) ==> ReadBlock(Block(b) + tail) == Some(Read(b, tail))
    ensures !Exact(|b|) ==> var r := ReadBlock(Block(b) + tail); r.Some? ==> |r.value.value| != |b|
  {
    hide Be16;
    assert Block(b) + tail == Be16(|b|) + (b + tail);
    Uint16At(|b|, b + tail);
    ReadBackExact(|b|);
    assert (b + tail)[..|b|] == b && (b + tail)[|b|..] == tail;
  }

  lemma Parts(r: Record, tail: seq<octet>)
    ensures var d := Block(r.data) + tail;
            var c := Block(r.name) + d;
            var b := Block(r.number) + c;
            var a := Block(r.address) + b;
            Printed(r) + tail == Be16(r.family) + a
  {
    hide Block, Be16;
    var d := Block(r.data) + tail;
    var c := Block(r.name) + d;
    var b := Block(r.number) + c;
    var a := Block(r.address) + b;
    assert Printed(r) + tail == Be16(r.family) + a;
  }

  /** Every length is one that is read exactly. */
  predicate ExactLengths(r: Record) {
    && |r.address| < U16 && |r.number| < U16 && |r.name| < U16 && |r.data| < U16
    && Exact(|r.address|) && Exact(|r.number|) && Exact(|r.name|) && Exact(|r.data|)
  }

  /** What such a record is read back as: the family may be misread and a string ends at a NUL. */
  function Seen(r: Record): Record {
    Record(ReadBack(r.family), r.address, CString(r.number), CString(r.name), r.data)
  }

  function AllSeen(rs: seq<Record>): (t: seq<Record>)
    ensures |t| == |rs| && forall i :: 0 <= i < |rs| ==> t[i] == Seen(rs[i])
  {
    seq(|rs|, i requires 0 <= i < |rs| => Seen(rs[i]))
  }

  lemma SeenSame(r: Record)
    ensures Seen(r) == r <==> Exact(r.family) && 0 !in r.number && 0 !in r.name
  {
    ReadBackExact(r.family);
  }

  lemma RecordBack(r: Record, tail: seq<octet>)
    requires ExactLengths(r)
    ensures ParseOne(Printed(r) + tail) == Some(Read(Seen(r), tail))
  {
    hide Block, ReadBlock, ReadUint16, Be16, Printed, CString;
    Parts(r, tail);
    var d := Block(r.data) + tail;
    var c := Block(r.name) + d;
    var b := Block(r.number) + c;
    var a := Block(r.address) + b;
    Uint16At(r.family, a);
    BlockAt(r.address, b);
    BlockAt(r.number, c);
    BlockAt(r.name, d);
    BlockAt(r.data, tail);
  }

  /** Records whose lengths read exactly come back one by one, and then whatever follows them is parsed. */
  lemma {:induction false} PrintedParses(rs: seq<Record>, tail: seq<octet>)
    requires forall r <- rs :: ExactLengths(r)
    ensures Parse(Print(rs) + tail) == AllSeen(rs) + Parse(tail)
    decreases |rs|
  {
    hide Printed, ParseOne, Parse, ExactLengths, Seen;
    if rs == [] {
      assert Print(rs) + tail == tail;
      assert AllSeen(rs) + Parse(tail) == Parse(tail);
    } else {
      assert rs[0] in rs;
      var more := Print(rs[1..]) + tail;
      assert Print(rs) + tail == Printed(rs[0]) + more;
      RecordBack(rs[0], more);
      ParseStep(Printed(rs[0]) + more);
      PrintedParses(rs[1..], tail);
      assert AllSeen(rs) == [Seen(rs[0])] + AllSeen(rs[1..]);
    }
  }

  /**
    Printing then parsing gives a list of records with exact lengths back if and only if every
    family is read exactly and no string holds a NUL.
   */
  lemma RoundTripExactly(rs: seq<Record>)
    requires forall r <- rs :: ExactLengths(r)
    ensures Parse(Print(rs)) == rs <==> forall r <- rs :: Exact(r.family) && 0 !in r.number && 0 !in r.name
  {
    hide Print, Parse, ExactLengths, Exact, Seen;
    PrintedParses(rs, []);
    ParseEmpty();
    assert Print(rs) + [] == Print(rs) && AllSeen(rs) + [] == AllSeen(rs);
    forall r <- rs ensures Seen(r) == r <==> Exact(r.family) && 0 !in r.number && 0 !in r.name {
      SeenSame(r);
    }
    if forall r <- rs :: Exact(r.family) && 0 !in r.number && 0 !in r.name {
      assert AllSeen(rs) == rs;
    }
    if AllSeen(rs) == rs {
      forall r <- rs ensures Seen(r) == r {
        var i :| 0 <= i < |rs| && rs[i] == r;
        assert AllSeen(rs)[i] == Seen(r);
      }
    }
  }

  /** A list of representable records comes back, and then whatever follows it is parsed. */
  lemma RoundTrip(rs: seq<Record>, tail: seq<octet>)
    requires forall r <- rs :: Printable(r) && Representable(r)
    ensures Parse(Print(rs) + tail) == rs + Parse(tail)
    ensures Parse(Print(rs)) == rs
  {
    hide Print, Parse, Seen;
    forall r <- rs ensures Seen(r) == r {
      SeenSame(r);
    }
    assert AllSeen(rs) == rs;
    PrintedParses(rs, tail);
    PrintedParses(rs, []);
    ParseEmpty();
    assert Print(rs) + [] == Print(rs) && AllSeen(rs) + [] == AllSeen(rs);
  }

  lemma ParseStep(b: seq<octet>)
    ensures var one := ParseOne(b); Parse(b) == if one.None? then [] else [one.value.value] + Parse(one.value.rest)
  {
  }

  lemma ParseEmpty()
    ensures Parse([]) == []
  {
  }

  // ------------------------------------------------------------------ editing

  predicate Matches(auth: Record, r: Record) {
    auth.family == r.family && auth.address == r.address && auth.number == r.number
  }

  ghost predicate Unmatched(auth: Record, rs: seq<Record>) {
    forall r <- rs :: !Matches(auth, r)
  }

  /** What the loop keeps of the old records. */
  function Kept(mode: Mode, auth: Record, rs: seq<Record>): (t: seq<Record>) {
    if rs == [] then []
    else if !Matches(auth, rs[0]) then [rs[0]] + Kept(mode, auth, rs[1..])
    else if mode.Delete? then rs[1..]
    else [rs[0].(data := auth.data)] + rs[1..]
  }

  predicate AnyMatch(auth: Record, rs: seq<Record>) {
    exists r <- rs :: Matches(auth, r)
  }

  /** The record list that is written back; without a match the record is appended in every mode. */
  function Edit(mode: Mode, auth: Record, rs: seq<Record>): (t: seq<Record>) {
    if AnyMatch(auth, rs) then Kept(mode, auth, rs) else rs + [auth]
  }

  lemma {:induction false} KeptUnmatched(mode: Mode, auth: Record, rs: seq<Record>, more: seq<Record>)
    requires Unmatched(auth, rs)
    ensures Kept(mode, auth, rs + more) == rs + Kept(mode, auth, more)
    decreases |rs|
  {
    if rs == [] {
      assert rs + more == more;
    } else {
      assert rs[0] in rs;
      assert (rs + more)[1..] == rs[1..] + more;
      KeptUnmatched(mode, auth, rs[1..], more);
    }
  }

  /** A list with a match, cut at its first one. */
  lemma {:induction false} FirstMatch(auth: Record, rs: seq<Record>) returns (k: nat)
    requires AnyMatch(auth, rs)
    ensures k < |rs| && Matches(auth, rs[k]) && Unmatched(auth, rs[..k])
    decreases |rs|
  {
    if Matches(auth, rs[0]) {
      k := 0;
    } else {
      assert rs == [rs[0]] + rs[1..];
      var j := FirstMatch(auth, rs[1..]);
      k := j + 1;
      assert rs[..k] == [rs[0]] + rs[1..][..j];
    }
  }

  /**
    REPLACE changes only the data of the first matching record, REMOVE takes only that record
    away, and without a match both append.
   */
  lemma EditChanges(mode: Mode, auth: Record, rs: seq<Record>)
    ensures Unmatched(auth, rs) ==> Edit(mode, auth, rs) == rs + [auth]
    ensures !Unmatched(auth, rs) ==>
              exists k :: 0 <= k < |rs| && Matches(auth, rs[k]) && Unmatched(auth, rs[..k]) &&
                Edit(mode, auth, rs) == if mode.Delete? then rs[..k] + rs[k + 1..] else rs[k := rs[k].(data := auth.data)]
  {
    if AnyMatch(auth, rs) {
      var k := FirstMatch(auth, rs);
      assert rs == rs[..k] + rs[k..] && rs[k..][1..] == rs[k + 1..];
      KeptUnmatched(mode, auth, rs[..k], rs[k..]);
      if !mode.Delete? {
        assert Kept(mode, auth, rs) == rs[k := rs[k].(data := auth.data)];
      }
    }
  }

  /** Two records are for different displays: another family, another address or another display number. */
  predicate Elsewhere(auth: Record, r: Record) {
    r.family != auth.family || r.address != auth.address || r.number != auth.number
  }

  /**
    The edit by the fields. A list for other displays has the record appended. Otherwise the first
    record for the display is the only one that changes: REPLACE gives it the new data and keeps
    its family, address, number and name, REMOVE takes it away; all others stay in place.
   */
  lemma EditByFields(mode: Mode, auth: Record, rs: seq<Record>)
    ensures (forall r <- rs :: Elsewhere(auth, r)) ==> Edit(mode, auth, rs) == rs + [auth]
    ensures !(forall r <- rs :: Elsewhere(auth, r)) ==>
              exists k :: 0 <= k < |rs| && !Elsewhere(auth, rs[k]) && (forall i :: 0 <= i < k ==> Elsewhere(auth, rs[i])) &&
                if mode == Delete then Edit(mode, auth, rs) == rs[..k] + rs[k + 1..]
                else Edit(mode, auth, rs) == rs[..k] + [Record(auth.family, auth.address, auth.number, rs[k].name, auth.data)] + rs[k + 1..]
  {
    hide Edit, Kept, Matches, Elsewhere;
    EditChanges(mode, auth, rs);
    forall r <- rs ensures Elsewhere(auth, r) <==> !Matches(auth, r) {
      ElsewhereIs(auth, r);
    }
    if !Unmatched(auth, rs) {
      var k :| 0 <= k < |rs| && Matches(auth, rs[k]) && Unmatched(auth, rs[..k]) &&
        Edit(mode, auth, rs) == if mode.Delete? then rs[..k] + rs[k + 1..] else rs[k := rs[k].(data := auth.data)];
      forall i | 0 <= i < k ensures Elsewhere(auth, rs[i]) {
        assert rs[..k][i] == rs[i];
      }
      ElsewhereIs(auth, rs[k]);
      ChangedAt(rs, k, rs[k].(data := auth.data));
    }
  }

  lemma ChangedAt(rs: seq<Record>, k: nat, r: Record)
    requires k < |rs|
    ensures rs[k := r] == rs[..k] + [r] + rs[k + 1..]
  {
  }

  lemma ElsewhereIs(auth: Record, r: Record)
    ensures Elsewhere(auth, r) <==> !Matches(auth, r)
    ensures Matches(auth, r) ==> r.(data := auth.data) == Record(auth.family, auth.address, auth.number, r.name, auth.data)
  {
  }

  /** SET writes the one record and forgets what the file held; the other modes edit what it held. */
  lemma WhatIsEdited(auth: Record, file: seq<octet>)
    ensures NewRecords(Set, auth, file) == [auth]
    ensures NewRecords(Replace, auth, file) == Edit(Replace, auth, Parse(file)) && NewRecords(Delete, auth, file) == Edit(Delete, auth, Parse(file))
  {
    hide Parse;
    assert [] + [auth] == [auth];
  }

  /** What a number that is not read exactly comes back as: its high octet has turned to all ones. */
  lemma MisreadIs(v: u16)
    ensures !Exact(v) ==> ReadBack(v) == 0xFF00 + v % 0x100 && ReadBack(v) != v
  {
    ReadBackExact(v);
  }

  /** Replacing twice is replacing once. */
  lemma ReplaceIdempotent(auth: Record, rs: seq<Record>)
    ensures Edit(Replace, auth, Edit(Replace, auth, rs)) == Edit(Replace, auth, rs)
  {
    var t := Edit(Replace, auth, rs);
    if AnyMatch(auth, rs) {
      var k := FirstMatch(auth, rs);
      assert rs == rs[..k] + rs[k..];
      KeptUnmatched(Replace, auth, rs[..k], rs[k..]);
      var changed := rs[k].(data := auth.data);
      assert t == rs[..k] + ([changed] + rs[k..][1..]);
      assert t[k] == changed && Matches(auth, t[k]);
      KeptUnmatched(Replace, auth, rs[..k], [changed] + rs[k..][1..]);
    } else {
      assert t[|rs|] == auth;
      KeptUnmatched(Replace, auth, rs, [auth]);
    }
  }

  /** REMOVE after REPLACE restores a list that did not match. */
  lemma RemoveRestores(auth: Record, rs: seq<Record>)
    requires Unmatched(auth, rs)
    ensures Edit(Delete, auth, Edit(Replace, auth, rs)) == rs
  {
    assert (rs + [auth])[|rs|] == auth;
    KeptUnmatched(Delete, auth, rs, [auth]);
    assert [auth][1..] == [];
  }

  // ------------------------------------------------------------------ the file

  /** Written from the start of a file that is not truncated. */
  function Overlaid(file: seq<octet>, b: seq<octet>): (t: seq<octet>)
    ensures |t| >= |b| && t[..|b|] == b
  {
    if |b| >= |file| then b else b + file[|b|..]
  }

  function NewRecords(mode: Mode, auth: Record, file: seq<octet>): seq<Record> {
    Edit(mode, auth, if mode.Set? then [] else Parse(file))
  }

  lemma KeptSnoc(mode: Mode, auth: Record, rs: seq<Record>, r: Record)
    ensures Kept(mode, auth, rs + [r]) ==
              if AnyMatch(auth, rs) || !Matches(auth, r) then Kept(mode, auth, rs) + [r]
              else if mode.Delete? then rs else rs + [r.(data := auth.data)]
  {
    hide Matches;
    if AnyMatch(auth, rs) {
      KeptAfterMatch(mode, auth, rs, r);
    } else {
      KeptUnmatched(mode, auth, rs, [r]);
      KeptUnmatched(mode, auth, rs, []);
      assert rs + [] == rs && [r][1..] == [];
    }
  }

  lemma KeptAfterMatch(mode: Mode, auth: Record, rs: seq<Record>, r: Record)
    requires AnyMatch(auth, rs)
    ensures Kept(mode, auth, rs + [r]) == Kept(mode, auth, rs) + [r]
  {
    hide Matches;
    var k := FirstMatch(auth, rs);
    var tail := rs[k..];
    assert rs == rs[..k] + tail && rs + [r] == rs[..k] + (tail + [r]);
    assert (tail + [r])[0] == rs[k] && (tail + [r])[1..] == tail[1..] + [r];
    KeptUnmatched(mode, auth, rs[..k], tail);
    KeptUnmatched(mode, auth, rs[..k], tail + [r]);
    assert Kept(mode, auth, tail + [r]) == Kept(mode, auth, tail) + [r];
  }

  /** The first loop of `x_authority_write`: records are read and edited as they come. */
  method ReadAndEdit(auth: Record, mode: Mode, input: seq<octet>) returns (records: seq<Record>)
    ensures records == Edit(mode, auth, Parse(input))
  {
    hide ParseOne, Parse, Kept, Matches, AnyMatch;
    records := [];
    var matched := false;
    var rest := input;
    ghost var seen: seq<Record> := [];
    KeptEmpty(mode, auth);
    while rest != []
      invariant Parse(input) == seen + Parse(rest)
      invariant matched == AnyMatch(auth, seen) && records == Kept(mode, auth, seen)
      invariant !matched ==> records == seen
      decreases |rest|
    {
      var one := ParseOne(rest);
      ParseStep(rest);
      if one.None? {
        break;
      }
      var a := one.value.value;
      assert seen + ([a] + Parse(one.value.rest)) == seen + [a] + Parse(one.value.rest);
      KeptSnoc(mode, auth, seen, a);
      AnyMatchSnoc(auth, seen, a);
      seen := seen + [a];
      rest := one.value.rest;
      if !matched && Matches(auth, a) {
        matched := true;
        if mode.Delete? {
          continue;
        }
        a := a.(data := auth.data);
      }
      records := records + [a];
    }
    assert Parse(rest) == [] by {
      ParseEmpty();
    }
    assert seen + [] == seen;
    if !matched {
      records := records + [auth];
    }
  }

  /** The second loop: the records are written one after the other. */
  method PrintAll(records: seq<Record>) returns (output: seq<octet>)
    ensures output == Print(records)
  {
    hide Printed, Print;
    output := [];
    assert records[..0] == [];
    PrintNothing();
    for i := 0 to |records|
      invariant output == Print(records[..i])
    {
      PrintSnoc(records[..i], records[i]);
      assert records[..i] + [records[i]] == records[..i + 1];
      output := output + Printed(records[i]);
    }
    assert records[..|records|] == records;
  }

  lemma PrintNothing()
    ensures Print([]) == []
  {
  }

  /** `x_authority_write`. */
  method Write(auth: Record, mode: Mode, file: seq<octet>) returns (written: seq<octet>)
    ensures written == Overlaid(file, Print(NewRecords(mode, auth, file)))
  {
    hide Print, Edit, Parse;
    var records := ReadAndEdit(auth, mode, if mode.Set? then [] else file);
    ParseEmpty();
    var output := PrintAll(records);
    written := if |output| >= |file| then output else output + file[|output|..];
  }

  lemma KeptEmpty(mode: Mode, auth: Record)
    ensures Kept(mode, auth, []) == [] && !AnyMatch(auth, [])
  {
  }

  lemma AnyMatchSnoc(auth: Record, rs: seq<Record>, r: Record)
    ensures AnyMatch(auth, rs + [r]) == (AnyMatch(auth, rs) || Matches(auth, r))
  {
    assert (rs + [r])[|rs|] == r;
    assert forall x <- rs :: x in rs + [r];
  }

  /**
    What a file that was written over reads back as: the new records, and then what the old file
    has past their end. It holds just the new list if and only if that is no shorter than the old
    file; it reads back as just the new list if and only if that is so or the old rest parses to nothing.
   */
  lemma FileReadsBack(file: seq<octet>, rs: seq<Record>)
    requires forall r <- rs :: Printable(r) && Representable(r)
    ensures var b := Print(rs);
            && (Overlaid(file, b) == b <==> |b| >= |file|)
            && Parse(Overlaid(file, b)) == rs + (if |b| >= |file| then [] else Parse(file[|b|..]))
            && (Parse(Overlaid(file, b)) == rs <==> |b| >= |file| || Parse(file[|b|..]) == [])
  {
    hide Print, Parse, Printable, Representable;
    var b := Print(rs);
    if |b| < |file| {
      RoundTrip(rs, file[|b|..]);
      assert (rs + Parse(file[|b|..]))[|rs|..] == Parse(file[|b|..]);
    } else {
      RoundTrip(rs, []);
    }
  }

  /** REPLACE on a file of representable records: parsing gives the edited list whenever it is no shorter. */
  lemma ReplaceReadsBack(auth: Record, rs: seq<Record>)
    requires Printable(auth) && Representable(auth) && forall r <- rs :: Printable(r) && Representable(r)
    requires |Print(Edit(Replace, auth, rs))| >= |Print(rs)|
    ensures Parse(Overlaid(Print(rs), Print(NewRecords(Replace, auth, Print(rs))))) == Edit(Replace, auth, rs)
  {
    hide Print, Parse, Representable, Matches;
    RoundTrip(rs, []);
    EditRepresentable(auth, rs);
    RoundTrip(Edit(Replace, auth, rs), []);
  }

  lemma EditRepresentable(auth: Record, rs: seq<Record>)
    requires Printable(auth) && Representable(auth) && forall r <- rs :: Printable(r) && Representable(r)
    ensures forall r <- Edit(Replace, auth, rs) :: Printable(r) && Representable(r)
  {
    EditChanges(Replace, auth, rs);
    if !Unmatched(auth, rs) {
      var k :| 0 <= k < |rs| && Edit(Replace, auth, rs) == rs[k := rs[k].(data := auth.data)];
      forall r <- Edit(Replace, auth, rs) ensures Printable(r) && Representable(r) {
        var i :| 0 <= i < |rs| && r == rs[k := rs[k].(data := auth.data)][i];
        assert rs[i] in rs && rs[k] in rs;
      }
    }
  }

  /** Taking the last record away leaves the file as it was: nothing cuts its end off. */
  lemma RemoveLastLeavesFile(auth: Record, rs: seq<Record>, last: Record)
    requires forall r <- rs + [last] :: Printable(r) && Representable(r)
    requires Unmatched(auth, rs) && Matches(auth, last)
    ensures NewRecords(Delete, auth, Print(rs + [last])) == rs
    ensures Overlaid(Print(rs + [last]), Print(rs)) == Print(rs + [last])
  {
    hide Print, Printed, Parse, Representable, Matches;
    RoundTrip(rs + [last], []);
    KeptSnoc(Delete, auth, rs, last);
    AnyMatchSnoc(auth, rs, last);
    assert Print(rs + [last]) == Print(rs) + Printed(last) by { PrintSnoc(rs, last); }
  }

  lemma PrintSnoc(rs: seq<Record>, r: Record)
    ensures Print(rs + [r]) == Print(rs) + Printed(r)
  {
    CatSnoc(Printed, rs, r);
  }
}
