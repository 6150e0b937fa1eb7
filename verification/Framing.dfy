/**
  Incremental framing: the three readers that cut an octet stream from a pipe into messages
  (src/greeter.c, liblightdm-gobject/greeter.c, src/unity-system-compositor.c).

  The specification is an automaton that takes one octet at a time. It does not know about
  reads, so whatever a reader is proved to share with it cannot depend on how the stream was
  cut into pieces.
 */
module Framing {
  import opened Octets

  /** The two header layouts. Login: 32-bit id, 32-bit payload length. Compositor: 16 and 16. */
  datatype Format = Login | Compositor

  function HeaderSize(f: Format): nat {
    if f.Login? then 8 else 4
  }

  function PayloadLength(f: Format, b: seq<octet>): nat
    requires |b| >= HeaderSize(f)
  {
    if f.Login? then FromBe32(b[4..8]) else FromBe16(b[2..4])
  }

  /** `b` is exactly one message: a header and the payload that it declares. */
  predicate Complete(f: Format, b: seq<octet>) {
    |b| >= HeaderSize(f) && |b| == HeaderSize(f) + PayloadLength(f, b)
  }

  /** The length that a reader holding `b` waits for: the header, then the whole message. */
  function Target(f: Format, b: seq<octet>): nat {
    if |b| < HeaderSize(f) then HeaderSize(f) else HeaderSize(f) + PayloadLength(f, b)
  }

  /** `b` is the beginning of a message that is not complete yet. */
  predicate Partial(f: Format, b: seq<octet>) {
    |b| < Target(f, b)
  }

  /** What is left over after some input, and the messages that it completed. */
  datatype Fed = Fed(rest: seq<octet>, messages: seq<seq<octet>>)

  /** The automaton: `rest` is what had been read of the current message. */
  function Feed(f: Format, rest: seq<octet>, input: seq<octet>): (r: Fed)
    requires Partial(f, rest)
    ensures Partial(f, r.rest)
    decreases |input|
  {
    if input == [] then Fed(rest, [])
    else
      var b := rest + [input[0]];
      HeaderKept(f, rest, [input[0]]);
      if Complete(f, b) then
        var r := Feed(f, [], input[1..]);
        Fed(r.rest, [b] + r.messages)
      else Feed(f, b, input[1..])
  }

  /** More octets do not change a payload length that has been read. */
  lemma HeaderKept(f: Format, b: seq<octet>, more: seq<octet>)
    ensures |b| >= HeaderSize(f) ==> PayloadLength(f, b + more) == PayloadLength(f, b)
  {
    if |b| >= HeaderSize(f) {
      if f.Login? {
        assert (b + more)[4..8] == b[4..8];
      } else {
        assert (b + more)[2..4] == b[2..4];
      }
    }
  }

  /** Input may be cut anywhere. */
  lemma {:induction false} FeedAppend(f: Format, rest: seq<octet>, a: seq<octet>, b: seq<octet>)
    requires Partial(f, rest)
    ensures Feed(f, rest, a + b) ==
            var r := Feed(f, rest, a); var q := Feed(f, r.rest, b);
            Fed(q.rest, r.messages + q.messages)
    decreases |a|
  {
    if a == [] {
      assert a + b == b;
    } else {
      assert (a + b)[0] == a[0] && (a + b)[1..] == a[1..] + b;
      var c := rest + [a[0]];
      HeaderKept(f, rest, [a[0]]);
      if Complete(f, c) {
        FeedAppend(f, [], a[1..], b);
        assert Feed(f, rest, a).messages == [c] + Feed(f, [], a[1..]).messages;
      } else {
        FeedAppend(f, c, a[1..], b);
      }
    }
  }

  /** The first `n + m` octets are the first `n` and then `m` more. */
  lemma FeedSplit(f: Format, rest: seq<octet>, input: seq<octet>, n: nat, m: nat)
    requires Partial(f, rest) && n + m <= |input|
    ensures Feed(f, rest, input[..n + m]) ==
            var r := Feed(f, rest, input[..n]); var q := Feed(f, r.rest, input[n..][..m]);
            Fed(q.rest, r.messages + q.messages)
    ensures n + m == |input| ==> input[..n + m] == input && input[n..][..m] == input[n..]
  {
    assert input[..n] + input[n..][..m] == input[..n + m];
    FeedAppend(f, rest, input[..n], input[n..][..m]);
  }

  /** Input that does not go past the target is kept, or completes exactly one message. */
  lemma {:induction false} FeedUpTo(f: Format, rest: seq<octet>, input: seq<octet>)
    requires Partial(f, rest) && |rest| + |input| <= Target(f, rest)
    ensures Feed(f, rest, input) ==
            if input != [] && Complete(f, rest + input) then Fed([], [rest + input]) else Fed(rest + input, [])
    decreases |input|
  {
    if input == [] {
      assert rest + input == rest;
    } else {
      var c := rest + [input[0]];
      HeaderKept(f, rest, [input[0]]);
      HeaderKept(f, c, input[1..]);
      assert c + input[1..] == rest + input;
      if |input| == 1 {
        assert input[1..] == [] && rest + input == c;
      } else {
        FeedUpTo(f, c, input[1..]);
      }
    }
  }

  /** What a read that stops at the target leaves behind. */
  lemma ReadStep(f: Format, rest: seq<octet>, got: seq<octet>, now: seq<octet>)
    requires Partial(f, rest) && |rest| + |got| <= Target(f, rest) && now == rest + got
    ensures |now| < Target(f, rest) ==> Target(f, now) == Target(f, rest) && Feed(f, rest, got) == Fed(now, [])
    ensures |now| == Target(f, rest) == HeaderSize(f) && PayloadLength(f, now) > 0 ==> Feed(f, rest, got) == Fed(now, [])
    ensures |now| == Target(f, rest) && !(|now| == HeaderSize(f) && PayloadLength(f, now) > 0) ==> Feed(f, rest, got) == Fed([], [now])
  {
    FeedUpTo(f, rest, got);
    HeaderKept(f, rest, got);
  }

  /** Input that completes a message reaches the target. */
  lemma ShortOfTarget(f: Format, rest: seq<octet>, input: seq<octet>)
    requires Partial(f, rest) && Feed(f, rest, input).messages != []
    ensures |rest| + |input| >= Target(f, rest)
  {
    if |rest| + |input| < Target(f, rest) {
      ReadStep(f, rest, input, rest + input);
    }
  }

  /** One whole message is dispatched as it is. */
  lemma FeedMessage(f: Format, m: seq<octet>)
    requires Complete(f, m)
    ensures Feed(f, [], m) == Fed([], [m])
  {
    var h, p := m[..HeaderSize(f)], m[HeaderSize(f)..];
    assert m == h + p && [] + h == h;
    HeaderKept(f, h, p);
    FeedUpTo(f, [], h);
    if p == [] {
      assert m == h;
    } else {
      FeedUpTo(f, h, p);
      FeedAppend(f, [], h, p);
    }
  }

  /** A stream of well-formed messages is cut into those messages, with nothing left over. */
  lemma {:induction false} FeedStream(f: Format, messages: seq<seq<octet>>)
    requires forall m <- messages :: Complete(f, m)
    ensures Feed(f, [], Flatten(messages)) == Fed([], messages)
  {
    if messages != [] {
      FeedMessage(f, messages[0]);
      FeedAppend(f, [], messages[0], Flatten(messages[1..]));
      FeedStream(f, messages[1..]);
    }
  }

  /** `realloc`: a block of `n` octets that begins with the `keep` octets in use. */
  method Reallocate(block: array<octet>, keep: nat, n: nat) returns (bigger: array<octet>)
    requires keep <= block.Length && keep <= n
    ensures fresh(bigger) && bigger.Length == n && bigger[..keep] == block[..keep]
  {
    bigger := new octet[n](_ => 0);
    for i := 0 to keep
      invariant bigger[..i] == block[..i]
    {
      bigger[i] := block[i];
    }
  }

  /** A read of at most `n` octets into `buffer` at `offset`: it takes what is there. */
  method ReadChars(buffer: array<octet>, offset: nat, available: seq<octet>, n: nat) returns (taken: nat)
    requires offset + n <= buffer.Length
    modifies buffer
    ensures taken == if |available| < n then |available| else n
    ensures buffer[..offset + taken] == old(buffer[..offset]) + available[..taken]
  {
    taken := if |available| < n then |available| else n;
    for i := 0 to taken
      invariant buffer[..offset + i] == old(buffer[..offset]) + available[..i]
    {
      buffer[offset + i] := available[i];
    }
  }

  /** Which program reads: the daemon, the greeter library (blocking or not), the compositor object. */
  datatype Program = Daemon | Library(block: bool) | CompositorReader

  /**
    The read buffer and octet count that each of the three objects keeps, with the callback of
    each. `n_read` never passes the capacity: that is `Valid`, and every array access is checked.
   */
  class Reader {
    const f: Format
    var buffer: array<octet>
    var nRead: nat

    ghost predicate Valid()
      reads this, buffer
    {
      && nRead <= buffer.Length
      && Partial(f, buffer[..nRead])
      && (f.Login? ==> Target(f, buffer[..nRead]) <= buffer.Length)
    }

    constructor (f: Format)
      ensures Valid() && fresh(buffer) && nRead == 0 && this.f == f
    {
      this.f := f;
      buffer := new octet[HeaderSize(f)](_ => 0);
      nRead := 0;
    }

    method GetMessageLength() returns (n: nat)
      requires HeaderSize(f) <= nRead <= buffer.Length
      ensures n == Target(f, buffer[..nRead])
    {
      if f.Login? {
        assert buffer[4..8] == buffer[..nRead][4..8];
        n := HeaderSize(f) + FromBe32(buffer[4..8]);
      } else {
        assert buffer[2..4] == buffer[..nRead][2..4];
        n := HeaderSize(f) + FromBe16(buffer[2..4]);
      }
    }

    /** One call of the daemon's `read_cb` while `available` waits in the pipe. */
    method DaemonReadCb(available: seq<octet>) returns (taken: nat, message: Option<seq<octet>>)
      requires Valid() && f.Login?
      modifies this, buffer
      ensures Valid() && (buffer == old(buffer) || fresh(buffer))
      ensures taken <= |available| && (available != [] ==> taken > 0)
      ensures Feed(f, old(buffer[..nRead]), available[..taken]) ==
              Fed(buffer[..nRead], if message.Some? then [message.value] else [])
      decreases HeaderSize(f) - nRead
    {
      hide Feed, FromBe32, FromBe16;
      ghost var before := buffer[..nRead];
      var target := HeaderSize(f);
      if nRead >= HeaderSize(f) {
        target := GetMessageLength();
      }
      taken := ReadChars(buffer, nRead, available, target - nRead);
      nRead := nRead + taken;
      ReadStep(f, before, available[..taken], buffer[..nRead]);
      message := None;
      if nRead != target {
        return;
      }
      // With the header in, run again for the content.
      if nRead == HeaderSize(f) {
        var whole := GetMessageLength();
        if whole > HeaderSize(f) {
          buffer := Reallocate(buffer, nRead, whole);
          var more;
          more, message := DaemonReadCb(available[taken..]);
          FeedSplit(f, before, available, taken, more);
          taken := taken + more;
          return;
        }
      }
      message := Some(buffer[..nRead]);
      nRead := 0;
    }

    /** The library's read loop, up to `target`. */
    method Fill(block: bool, target: nat, available: seq<octet>) returns (taken: nat)
      requires nRead <= target <= buffer.Length
      requires block ==> nRead + |available| >= target
      modifies `nRead, buffer
      ensures taken <= |available| && nRead == old(nRead) + taken <= target
      ensures nRead == target || (!block && taken == |available|)
      ensures buffer[..nRead] == old(buffer[..nRead]) + available[..taken]
    {
      taken := 0;
      if block {
        while nRead < target
          invariant taken <= |available| && nRead == old(nRead) + taken <= target
          invariant buffer[..nRead] == old(buffer[..nRead]) + available[..taken]
          decreases target - nRead
        {
          var size :| 1 <= size <= target - nRead && size <= |available| - taken;
          ghost var portion := available[taken..taken + size];
          var n := ReadChars(buffer, nRead, available[taken..taken + size], size);
          assert portion[..n] == portion && available[..taken] + portion == available[..taken + size];
          nRead := nRead + n;
          taken := taken + n;
        }
      } else {
        taken := ReadChars(buffer, nRead, available, target - nRead);
        nRead := nRead + taken;
      }
    }

    /**
      One call of the library's `recv_message`. Without `block` it reads once; with `block` it
      reads, in portions of any size, until the message is whole (so `available` must hold that).
     */
    method LibraryReceive(block: bool, available: seq<octet>) returns (taken: nat, message: Option<seq<octet>>)
      requires Valid() && f.Login?
      requires block ==> Feed(f, buffer[..nRead], available).messages != []
      modifies this, buffer
      ensures Valid() && (buffer == old(buffer) || fresh(buffer))
      ensures taken <= |available| && (available != [] ==> taken > 0) && (block ==> message.Some?)
      ensures Feed(f, old(buffer[..nRead]), available[..taken]) ==
              Fed(buffer[..nRead], if message.Some? then [message.value] else [])
      decreases HeaderSize(f) - nRead
    {
      hide Feed, FromBe32, FromBe16;
      ghost var before := buffer[..nRead];
      var target := HeaderSize(f);
      if nRead >= HeaderSize(f) {
        target := GetMessageLength();
      }
      if block {
        ShortOfTarget(f, before, available);
      }
      taken := Fill(block, target, available);
      ReadStep(f, before, available[..taken], buffer[..nRead]);
      message := None;
      if nRead != target {
        return;
      }
      if nRead == HeaderSize(f) {
        var whole := GetMessageLength();
        if whole > HeaderSize(f) {
          buffer := Reallocate(buffer, nRead, whole);
          FeedSplit(f, before, available, taken, |available| - taken);
          var more;
          more, message := LibraryReceive(block, available[taken..]);
          FeedSplit(f, before, available, taken, more);
          taken := taken + more;
          return;
        }
      }
      message := Some(buffer[..nRead]);
      buffer := new octet[nRead](_ => 0);
      nRead := 0;
    }

    /** One call of the compositor object's `read_cb`, which recomputes the need on every call. */
    method CompositorReadCb(available: seq<octet>) returns (taken: nat, message: Option<seq<octet>>)
      requires Valid() && f.Compositor?
      modifies this, buffer
      ensures Valid() && (buffer == old(buffer) || fresh(buffer))
      ensures taken <= |available| && (available != [] ==> taken > 0)
      ensures Feed(f, old(buffer[..nRead]), available[..taken]) ==
              Fed(buffer[..nRead], if message.Some? then [message.value] else [])
    {
      ghost var before := buffer[..nRead];
      var nToRead := 0;
      if nRead < HeaderSize(f) {
        nToRead := HeaderSize(f) - nRead;
      } else {
        var whole := GetMessageLength();
        nToRead := whole - nRead;
      }
      // The recorded capacity stays 0, so the block is always reallocated to the exact need.
      buffer := Reallocate(buffer, nRead, nRead + nToRead);
      taken := ReadChars(buffer, nRead, available, nToRead);
      nRead := nRead + taken;
      ReadStep(f, before, available[..taken], buffer[..nRead]);
      message := None;
      if nRead < HeaderSize(f) {
        return;
      }
      var whole := GetMessageLength();
      if nRead < whole {
        return;
      }
      message := Some(buffer[..nRead]);
      nRead := 0;
    }

    /** One call of the program's own callback. */
    method Callback(p: Program, available: seq<octet>) returns (taken: nat, message: Option<seq<octet>>)
      requires Valid() && (f.Compositor? <==> p.CompositorReader?) && p != Library(true)
      modifies this, buffer
      ensures Valid() && (buffer == old(buffer) || fresh(buffer))
      ensures taken <= |available| && (available != [] ==> taken > 0)
      ensures Feed(f, old(buffer[..nRead]), available[..taken]) ==
              Fed(buffer[..nRead], if message.Some? then [message.value] else [])
    {
      hide Feed;
      match p {
        case Daemon => taken, message := DaemonReadCb(available);
        case Library(_) => taken, message := LibraryReceive(false, available);
        case CompositorReader => taken, message := CompositorReadCb(available);
      }
    }

    /** While octets wait in the pipe the callback runs again. */
    method DispatchPiece(p: Program, piece: seq<octet>) returns (messages: seq<seq<octet>>)
      requires Valid() && (f.Compositor? <==> p.CompositorReader?) && p != Library(true)
      modifies this, buffer
      ensures Valid() && (buffer == old(buffer) || fresh(buffer))
      ensures Feed(f, old(buffer[..nRead]), piece) == Fed(buffer[..nRead], messages)
    {
      ghost var before := buffer[..nRead];
      messages := [];
      var at := 0;
      assert piece[..0] == [];
      hide Feed, Valid;
      while at < |piece|
        invariant at <= |piece| && Valid() && (buffer == old(buffer) || fresh(buffer)) && Partial(f, before)
        invariant nRead <= buffer.Length && Feed(f, before, piece[..at]) == Fed(buffer[..nRead], messages)
      {
        var taken, message := Callback(p, piece[at..]);
        assert nRead <= buffer.Length by { ValidFits(); }
        FeedSplit(f, before, piece, at, taken);
        messages := messages + if message.Some? then [message.value] else [];
        at := at + taken;
      }
      assert piece[..at] == piece;
    }

    lemma ValidFits()
      requires Valid()
      ensures nRead <= buffer.Length && Partial(f, buffer[..nRead])
    {
    }

    /** The main loop over the pieces as they arrive. */
    method Dispatch(p: Program, pieces: seq<seq<octet>>) returns (messages: seq<seq<octet>>)
      requires Valid() && (f.Compositor? <==> p.CompositorReader?) && p != Library(true)
      modifies this, buffer
      ensures Valid()
      ensures Feed(f, old(buffer[..nRead]), Flatten(pieces)) == Fed(buffer[..nRead], messages)
    {
      ghost var before := buffer[..nRead];
      messages := [];
      assert Flatten(pieces[..0]) == [];
      hide Feed, Valid, Flatten;
      ValidFits();
      for i := 0 to |pieces|
        invariant Valid() && (buffer == old(buffer) || fresh(buffer)) && Partial(f, before)
        invariant nRead <= buffer.Length && Feed(f, before, Flatten(pieces[..i])) == Fed(buffer[..nRead], messages)
      {
        var more := DispatchPiece(p, pieces[i]);
        ValidFits();
        FlattenSnoc(pieces[..i], pieces[i]);
        assert pieces[..i] + [pieces[i]] == pieces[..i + 1];
        FeedAppend(f, before, Flatten(pieces[..i]), pieces[i]);
        messages := messages + more;
      }
      assert pieces[..|pieces|] == pieces;
    }
  }

  /**
    Framing does not depend on chunking: a fresh reader dispatches exactly the messages that
    were written, whatever the pieces are, and keeps no octet back.
   */
  method ReadStream(p: Program, pieces: seq<seq<octet>>, ghost written: seq<seq<octet>>)
      returns (messages: seq<seq<octet>>)
    requires p != Library(true)
    requires var f := if p.CompositorReader? then Compositor else Login;
             forall m <- written :: Complete(f, m)
    requires Flatten(pieces) == Flatten(written)
    ensures messages == written
  {
    var f := if p.CompositorReader? then Compositor else Login;
    var reader := new Reader(f);
    FeedStream(f, written);
    assert reader.buffer[..0] == [];
    messages := reader.Dispatch(p, pieces);
  }
}
