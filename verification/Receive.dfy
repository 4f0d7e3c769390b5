/** Receiving one reply from a socket, byte buffer and all.  The production and the simple backend
    have the same loop and differ only in the size of the buffer (8192 and 4096 bytes). */
module Receive {

  const NUL: char := 0 as char

  /** The synchronous-idle character, which a congested server sends to probe its sockets. */
  const IDLE: char := 22 as char

  const CHANNEL_BUFFER: nat := 8192
  const SIMPLE_BUFFER: nat := 4096

  /** What arrives on a socket: some bytes (none means an orderly close) or a failure. */
  datatype Arrival = Bytes(data: string) | Broken

  datatype Outcome = Reply(text: string) | UnableToTalk | ClosedByServer

  class Socket {
    var incoming: seq<Arrival>

    constructor (incoming: seq<Arrival>)
      ensures this.incoming == incoming
    {
      this.incoming := incoming;
    }

    /** The system call: at most `max` bytes of the next arrival, the rest of it staying behind. */
    method Recv(buf: array<char>, max: nat) returns (len: int)
      requires 0 < max <= buf.Length
      modifies this, buf
      ensures len <= max
      ensures if old(incoming) == [] then len == 0 && incoming == []
              else if old(incoming)[0].Broken? then len == -1 && incoming == old(incoming)[1..]
              else len == |Taken(old(incoming)[0].data, max)| && buf[..len] == Taken(old(incoming)[0].data, max)
                   && incoming == Left(old(incoming), max)
    {
      if incoming == [] {
        return 0;
      }
      var first := incoming[0];
      if first.Broken? {
        incoming := incoming[1..];
        return -1;
      }
      var taken := Taken(first.data, max);
      incoming := Left(incoming, max);
      len := |taken|;
      for i := 0 to len
        invariant buf[..i] == taken[..i]
        invariant incoming == Left(old(incoming), max)
      {
        buf[i] := taken[i];
      }
    }
  }

  function Taken(data: string, max: nat): (r: string)
    ensures |r| <= max && r <= data
  {
    if |data| <= max then data else data[..max]
  }

  function Left(incoming: seq<Arrival>, max: nat): seq<Arrival>
    requires incoming != [] && incoming[0].Bytes?
  {
    if |incoming[0].data| <= max then incoming[1..]
    else [Bytes(incoming[0].data[max..])] + incoming[1..]
  }

  /** A C string ends at the first NUL. */
  function CString(s: string): string
  {
    if s == "" || s[0] == NUL then "" else [s[0]] + CString(s[1..])
  }

  function DropLeading(s: string): string
  {
    if s == "" || s[0] != IDLE then s else DropLeading(s[1..])
  }

  function DropTrailing(s: string): string
  {
    if s == "" || s[|s| - 1] != IDLE then s else DropTrailing(s[..|s| - 1])
  }

  /** One read without the idle characters at its ends. */
  function Core(s: string): string
  {
    DropTrailing(DropLeading(s))
  }

  ghost function Weight(incoming: seq<Arrival>): nat
  {
    if incoming == [] then 0
    else (if incoming[0].Bytes? then |incoming[0].data| else 0) + 1 + Weight(incoming[1..])
  }

  /** What the receiving loop returns, and what it leaves on the socket. */
  ghost function Result(incoming: seq<Arrival>, garbage: bool, max: nat, first: bool, rb: string): (Outcome, seq<Arrival>)
    requires 0 < max
    decreases Weight(incoming)
  {
    if incoming == [] then (ClosedByServer, [])
    else if incoming[0].Broken? then (UnableToTalk, incoming[1..])
    else if incoming[0].data == "" then (ClosedByServer, incoming[1..])
    else
      var rest, core := Left(incoming, max), Core(Taken(incoming[0].data, max));
      if core == "" then Result(rest, garbage, max, first, rb)
      else
        var complete := core[|core| - 1] == '\n';
        if first && (complete || garbage) then (Reply(CString(core)), rest)
        else if complete then (Reply(rb + CString(core)), rest)
        else Result(rest, garbage, max, false, rb + CString(core))
  }

  lemma {:induction false} DropLeadingIs(s: string, n: nat)
    requires n <= |s| && (forall i :: 0 <= i < n ==> s[i] == IDLE) && (n == |s| || s[n] != IDLE)
    ensures DropLeading(s) == s[n..]
  {
    if n > 0 {
      DropLeadingIs(s[1..], n - 1);
    }
  }

  lemma {:induction false} DropTrailingIs(s: string, n: nat)
    requires n <= |s| && (forall i :: n <= i < |s| ==> s[i] == IDLE) && (n == 0 || s[n - 1] != IDLE)
    ensures DropTrailing(s) == s[..n]
  {
    if n < |s| {
      DropTrailingIs(s[..|s| - 1], n);
      assert s[..|s| - 1][..n] == s[..n];
    } else {
      assert s[..n] == s;
    }
  }

  lemma {:induction false} CStringStopsAtNul(s: string, n: nat)
    requires n < |s| && s[n] == NUL
    ensures CString(s) == CString(s[..n])
  {
    if n > 0 && s[0] != NUL {
      CStringStopsAtNul(s[1..], n - 1);
      assert s[..n][1..] == s[1..][..n - 1];
    }
  }

  /** Skips the idle characters at the start of a read of `len` bytes. */
  method SkipIdle(buf: array<char>, len: nat) returns (pbf: nat)
    requires 0 < len < buf.Length && buf[len] == NUL
    ensures pbf <= len && buf[pbf..len] == DropLeading(buf[..len])
    ensures pbf < len ==> buf[pbf] != IDLE
  {
    pbf := 0;
    if buf[0] == IDLE {
      pbf := 1;
      while buf[pbf] == IDLE && pbf < len
        invariant 1 <= pbf <= len
        invariant forall i :: 0 <= i < pbf ==> buf[i] == IDLE
        decreases len - pbf
      {
        pbf := pbf + 1;
      }
    }
    DropLeadingIs(buf[..len], pbf);
    assert buf[..len][pbf..] == buf[pbf..len];
  }

  /** Overwrites the idle characters at the end of a read with NUL.  Some byte from `pbf` on is not
      idle, so the index stays in the buffer. */
  method CutIdle(buf: array<char>, pbf: nat, len: nat) returns (end: nat)
    requires pbf < len < buf.Length && buf[len] == NUL && buf[pbf] != IDLE
    modifies buf
    ensures pbf < end <= len && buf[end] == NUL
    ensures buf[pbf..end] == DropTrailing(old(buf[pbf..len]))
  {
    ghost var read := buf[pbf..len];
    end := len;
    if buf[len - 1] == IDLE {
      end := end - 1;
      buf[end] := NUL;
      while buf[end - 1] == IDLE && 0 < end
        invariant pbf < end < len && buf[end] == NUL && buf[pbf..end] == read[..end - pbf]
        invariant forall i :: end - pbf <= i < |read| ==> read[i] == IDLE
        decreases end
      {
        assert buf[end - 1] == read[end - 1 - pbf];
        end := end - 1;
        buf[end] := NUL;
      }
      assert buf[end - 1] == read[end - 1 - pbf];
    }
    DropTrailingIs(read, end - pbf);
  }

  /** What follows a read that brought something. */
  lemma ResultAfterRead(incoming: seq<Arrival>, garbage: bool, max: nat, first: bool, rb: string, core: string)
    requires 0 < max && incoming != [] && incoming[0].Bytes? && incoming[0].data != ""
    requires core == Core(Taken(incoming[0].data, max))
    ensures Weight(Left(incoming, max)) < Weight(incoming)
    ensures core == "" ==> Result(incoming, garbage, max, first, rb) == Result(Left(incoming, max), garbage, max, first, rb)
    ensures core != "" && first && (core[|core| - 1] == '\n' || garbage) ==>
              Result(incoming, garbage, max, first, rb) == (Reply(CString(core)), Left(incoming, max))
    ensures core != "" && !(first && (core[|core| - 1] == '\n' || garbage)) ==>
              Result(incoming, garbage, max, first, rb) ==
              if core[|core| - 1] == '\n' then (Reply(rb + CString(core)), Left(incoming, max))
              else Result(Left(incoming, max), garbage, max, false, rb + CString(core))
  {
  }

  /** One read into the buffer: what is left of it between its idle characters, as a C string,
      and whether it ends in a newline. */
  method ReadOnce(sock: Socket, max: nat) returns (len: int, idle: bool, text: string, newline: bool)
    requires 0 < max
    modifies sock
    ensures len <= 0 ==> old(sock.incoming) == [] || old(sock.incoming)[0].Broken? || old(sock.incoming)[0].data == ""
    ensures len < 0 ==> (UnableToTalk, sock.incoming) == Result(old(sock.incoming), false, max, true, "")
    ensures len == 0 ==> (ClosedByServer, sock.incoming) == Result(old(sock.incoming), false, max, true, "")
    ensures len > 0 ==> old(sock.incoming) != [] && old(sock.incoming)[0].Bytes? && old(sock.incoming)[0].data != ""
                        && sock.incoming == Left(old(sock.incoming), max)
    ensures len > 0 ==> var core := Core(Taken(old(sock.incoming)[0].data, max));
                        if idle then core == ""
                        else core != "" && text == CString(core) && newline == (core[|core| - 1] == '\n')
  {
    var buf := new char[max + 1];
    ghost var arrivals := sock.incoming;
    idle, text, newline := true, "", false;
    len := sock.Recv(buf, max);
    if len <= 0 {
      return;
    }
    buf[len] := NUL;
    assert buf[..len] == Taken(arrivals[0].data, max);
    var pbf := SkipIdle(buf, len);
    if pbf == len {
      return;
    }
    var end := CutIdle(buf, pbf, len);
    idle := false;
    text, newline := TextOf(buf, pbf, end);
  }

  /** What stands in the buffer from `pbf` on, as a C string. */
  method TextOf(buf: array<char>, pbf: nat, end: nat) returns (text: string, newline: bool)
    requires pbf < end < buf.Length && buf[end] == NUL
    ensures text == CString(buf[pbf..end]) && newline == (buf[pbf..end][end - pbf - 1] == '\n')
  {
    text, newline := CString(buf[pbf..]), buf[end - 1] == '\n';
    assert buf[pbf..][end - pbf] == NUL && buf[pbf..][..end - pbf] == buf[pbf..end];
    CStringStopsAtNul(buf[pbf..], end - pbf);
  }

  /** The receiving loop over its buffer.  `garbage` is set when the server's prompt, which has no
      final newline, is expected. */
  method DoRecv(sock: Socket, garbage: bool, max: nat) returns (out: Outcome)
    requires 0 < max
    modifies sock
    ensures (out, sock.incoming) == Result(old(sock.incoming), garbage, max, true, "")
  {
    var rb, first := "", true;
    while true
      invariant Result(sock.incoming, garbage, max, first, rb) == Result(old(sock.incoming), garbage, max, true, "")
      decreases Weight(sock.incoming)
    {
      ghost var arrivals := sock.incoming;
      var len, idle, text, newline := ReadOnce(sock, max);
      if len < 0 {
        return UnableToTalk;
      }
      if len == 0 {
        return ClosedByServer;
      }
      ResultAfterRead(arrivals, garbage, max, first, rb, Core(Taken(arrivals[0].data, max)));
      if idle {
        continue;
      }
      if first && (newline || garbage) {
        return Reply(text);
      }
      first := false;
      rb := rb + text;
      if newline {
        return Reply(rb);
      }
    }
  }

  // ---- how a reply is cut up does not matter ----

  ghost function Cores(parts: seq<string>): string
  {
    if parts == [] then "" else Core(parts[0]) + Cores(parts[1..])
  }

  ghost function AsArrivals(parts: seq<string>): seq<Arrival>
  {
    seq(|parts|, i requires 0 <= i < |parts| => Bytes(parts[i]))
  }

  /** A reply: its newline is at the end and nowhere else, and it has no NUL. */
  ghost predicate Clean(reply: string)
  {
    && reply != "" && reply[|reply| - 1] == '\n'
    && (forall i :: 0 <= i < |reply| - 1 ==> reply[i] != '\n')
    && NUL !in reply && IDLE !in reply
  }

  lemma {:induction false} CStringWhole(s: string)
    requires NUL !in s
    ensures CString(s) == s
  {
    if s != "" {
      CStringWhole(s[1..]);
    }
  }

  lemma ReadsTail(parts: seq<string>, more: seq<Arrival>)
    requires parts != []
    ensures (AsArrivals(parts) + more)[0] == Bytes(parts[0])
    ensures (AsArrivals(parts) + more)[1..] == AsArrivals(parts[1..]) + more
  {
  }

  /** The result for the next part. */
  lemma NextPart(parts: seq<string>, more: seq<Arrival>, max: nat, first: bool, rb: string)
    requires 0 < max && parts != [] && 0 < |parts[0]| <= max && NUL !in Core(parts[0]) && (first ==> rb == "")
    ensures var core, rest := Core(parts[0]), AsArrivals(parts[1..]) + more;
            Result(AsArrivals(parts) + more, false, max, first, rb) ==
            if core == "" then Result(rest, false, max, first, rb)
            else if core[|core| - 1] == '\n' then (Reply(rb + core), rest)
            else Result(rest, false, max, false, rb + core)
  {
    ReadsTail(parts, more);
    CStringWhole(Core(parts[0]));
    assert rb == "" ==> rb + Core(parts[0]) == Core(parts[0]);
    ResultAfterRead(AsArrivals(parts) + more, false, max, first, rb, Core(parts[0]));
  }

  /** A piece of a clean reply ends in a newline exactly if it is the last piece. */
  lemma PieceOfClean(reply: string, rb: string, core: string, rest: string)
    requires Clean(reply) && rb + (core + rest) == reply
    ensures NUL !in core && rb + core + rest == reply
    ensures core != "" ==> (core[|core| - 1] == '\n' <==> rest == "")
  {
    assert forall i :: 0 <= i < |core| ==> core[i] == reply[|rb| + i];
    assert |reply| == |rb| + |core| + |rest|;
  }

  /** These reads complete the reply of which `rb` has been received. */
  ghost predicate Completes(parts: seq<string>, max: nat, first: bool, rb: string, reply: string)
  {
    && 0 < max && parts != [] && (forall i :: 0 <= i < |parts| ==> 0 < |parts[i]| <= max)
    && Clean(reply) && rb + Cores(parts) == reply && Core(parts[|parts| - 1]) != "" && (first ==> rb == "")
  }

  lemma LastPart(parts: seq<string>, more: seq<Arrival>, max: nat, first: bool, rb: string, reply: string)
    requires Completes(parts, max, first, rb, reply) && |parts| == 1
    ensures Result(AsArrivals(parts) + more, false, max, first, rb) == (Reply(reply), more)
  {
    PieceOfClean(reply, rb, Core(parts[0]), Cores(parts[1..]));
    NextPart(parts, more, max, first, rb);
    assert AsArrivals(parts[1..]) + more == more;
    assert Cores(parts[1..]) == "" && rb + Core(parts[0]) + "" == rb + Core(parts[0]);
    assert rb + Core(parts[0]) == reply;
  }

  lemma EarlierPart(parts: seq<string>, more: seq<Arrival>, max: nat, first: bool, rb: string, reply: string)
    requires Completes(parts, max, first, rb, reply) && |parts| > 1
    ensures var core, f := Core(parts[0]), first && Core(parts[0]) == "";
            && Completes(parts[1..], max, f, rb + core, reply)
            && Result(AsArrivals(parts) + more, false, max, first, rb)
            == Result(AsArrivals(parts[1..]) + more, false, max, f, rb + core)
  {
    var core := Core(parts[0]);
    LastCoreLater(parts);
    PieceOfClean(reply, rb, core, Cores(parts[1..]));
    NextPart(parts, more, max, first, rb);
    assert core == "" ==> rb + core == rb;
  }

  /** Reassembly: for every way of cutting a clean reply into reads, with idle characters
      added at both ends of reads and as whole reads, exactly the reply is returned and
      exactly these reads are consumed, whatever the size of the buffer. */
  lemma {:induction false} AnyCutReassembles(parts: seq<string>, more: seq<Arrival>, max: nat, first: bool, rb: string, reply: string)
    requires Completes(parts, max, first, rb, reply)
    ensures Result(AsArrivals(parts) + more, false, max, first, rb) == (Reply(reply), more)
    decreases |parts|
  {
    if |parts| == 1 {
      LastPart(parts, more, max, first, rb, reply);
    } else {
      EarlierPart(parts, more, max, first, rb, reply);
      AnyCutReassembles(parts[1..], more, max, first && Core(parts[0]) == "", rb + Core(parts[0]), reply);
    }
  }

  /** Both backends, each with its own buffer, get the same reply from the same reads. */
  lemma BothBackendsReassemble(parts: seq<string>, more: seq<Arrival>, reply: string)
    requires Completes(parts, SIMPLE_BUFFER, true, "", reply)
    ensures Result(AsArrivals(parts) + more, false, CHANNEL_BUFFER, true, "") == (Reply(reply), more)
    ensures Result(AsArrivals(parts) + more, false, SIMPLE_BUFFER, true, "") == (Reply(reply), more)
  {
    AnyCutReassembles(parts, more, CHANNEL_BUFFER, true, "", reply);
    AnyCutReassembles(parts, more, SIMPLE_BUFFER, true, "", reply);
  }

  lemma {:induction false} LastCoreLater(parts: seq<string>)
    requires |parts| > 1 && Core(parts[|parts| - 1]) != ""
    ensures Cores(parts[1..]) != ""
  {
    if |parts| > 2 {
      LastCoreLater(parts[1..]);
    }
  }

  // ---- every outcome ----

  /** The successive reads up to a close or a failure. */
  ghost function Reads(incoming: seq<Arrival>, max: nat): seq<string>
    requires 0 < max
    decreases Weight(incoming)
  {
    if incoming == [] || incoming[0].Broken? || incoming[0].data == "" then []
    else
      ShorterLeft(incoming, max);
      [Taken(incoming[0].data, max)] + Reads(Left(incoming, max), max)
  }

  /** How the reads end. */
  ghost function Stop(incoming: seq<Arrival>, max: nat): Outcome
    requires 0 < max
    decreases Weight(incoming)
  {
    if incoming == [] then ClosedByServer
    else if incoming[0].Broken? then UnableToTalk
    else if incoming[0].data == "" then ClosedByServer
    else
      ShorterLeft(incoming, max);
      Stop(Left(incoming, max), max)
  }

  lemma ShorterLeft(incoming: seq<Arrival>, max: nat)
    requires 0 < max && incoming != [] && incoming[0].Bytes? && incoming[0].data != ""
    ensures Weight(Left(incoming, max)) < Weight(incoming)
  {
    ResultAfterRead(incoming, false, max, true, "", Core(Taken(incoming[0].data, max)));
  }

  /** All bytes that arrive before a close or a failure. */
  ghost function Arrived(incoming: seq<Arrival>): string
  {
    if incoming == [] || incoming[0].Broken? || incoming[0].data == "" then "" else incoming[0].data + Arrived(incoming[1..])
  }

  ghost function Joined(parts: seq<string>): string
  {
    if parts == [] then "" else parts[0] + Joined(parts[1..])
  }

  /** Whatever the size of the buffer, no byte is lost, repeated or moved by reading, and no read brings
      more than the buffer holds. */
  lemma {:induction false} ReadsKeepAll(incoming: seq<Arrival>, max: nat)
    requires 0 < max
    ensures Joined(Reads(incoming, max)) == Arrived(incoming) && forall r <- Reads(incoming, max) :: 0 < |r| <= max
    decreases Weight(incoming)
  {
    if incoming != [] && incoming[0].Bytes? && incoming[0].data != "" {
      var read, rest := Taken(incoming[0].data, max), Left(incoming, max);
      ShorterLeft(incoming, max);
      ReadsKeepAll(rest, max);
      assert Reads(incoming, max)[0] == read && Reads(incoming, max)[1..] == Reads(rest, max);
      NothingLost(incoming, max);
    }
  }

  lemma NothingLost(incoming: seq<Arrival>, max: nat)
    requires 0 < max && incoming != [] && incoming[0].Bytes? && incoming[0].data != ""
    ensures Taken(incoming[0].data, max) + Arrived(Left(incoming, max)) == Arrived(incoming) && 0 < |Taken(incoming[0].data, max)|
  {
    var data, more := incoming[0].data, Arrived(incoming[1..]);
    if |data| > max {
      PartLeft(data[max..], incoming[1..]);
      CutInTwo(data, max, more);
    }
  }

  lemma PartLeft(data: string, rest: seq<Arrival>)
    requires data != ""
    ensures Arrived([Bytes(data)] + rest) == data + Arrived(rest)
  {
    assert ([Bytes(data)] + rest)[1..] == rest;
  }

  lemma CutInTwo(data: string, n: nat, more: string)
    requires n <= |data|
    ensures data[..n] + (data[n..] + more) == data + more
  {
  }

  /** The last character of a read that is kept is a newline. */
  predicate EndsLine(read: string)
  {
    Core(read) != "" && Core(read)[|Core(read)| - 1] == '\n'
  }

  ghost function Texts(got: seq<string>): string
  {
    if got == [] then "" else CString(Core(got[0])) + Texts(got[1..])
  }

  /** The reads that the loop takes: up to the first whose last kept character is a newline. */
  ghost predicate FirstEnd(got: seq<string>, n: nat)
  {
    n < |got| && EndsLine(got[n]) && forall i :: 0 <= i < n ==> !EndsLine(got[i])
  }

  /** What the reads say about an outcome of the loop. */
  ghost predicate Outcomes(got: seq<string>, stop: Outcome, rb: string, max: nat, result: (Outcome, seq<Arrival>))
    requires 0 < max
  {
    && (forall n: nat :: FirstEnd(got, n) ==> result.0 == Reply(rb + Texts(got[..n + 1])) && Reads(result.1, max) == got[n + 1..])
    && ((forall i :: 0 <= i < |got| ==> !EndsLine(got[i])) ==> result.0 == stop)
  }

  lemma EndsHere(got: seq<string>, stop: Outcome, rb: string, max: nat, rest: seq<Arrival>)
    requires 0 < max && got != [] && EndsLine(got[0]) && got[1..] == Reads(rest, max)
    ensures Outcomes(got, stop, rb, max, (Reply(rb + CString(Core(got[0]))), rest))
  {
    OneText(got[0], rb);
    assert got[..1] == [got[0]];
    forall n: nat | FirstEnd(got, n) ensures n == 0 {
    }
  }

  lemma GoesOn(got: seq<string>, stop: Outcome, rb: string, max: nat, result: (Outcome, seq<Arrival>))
    requires 0 < max && got != [] && !EndsLine(got[0]) && Outcomes(got[1..], stop, rb + CString(Core(got[0])), max, result)
    ensures Outcomes(got, stop, rb, max, result)
  {
    var later, more := got[1..], rb + CString(Core(got[0]));
    forall n: nat | FirstEnd(got, n)
      ensures n > 0 && FirstEnd(later, n - 1) && rb + Texts(got[..n + 1]) == more + Texts(later[..n]) && got[n + 1..] == later[n..]
    {
      TextsStep(got, n);
      Associative(rb, CString(Core(got[0])), Texts(later[..n]));
    }
    forall i | 0 <= i < |later| ensures later[i] == got[i + 1] {
    }
  }

  lemma {:induction false} OutcomeFrom(incoming: seq<Arrival>, max: nat, first: bool, rb: string)
    requires 0 < max && (first ==> rb == "")
    ensures Outcomes(Reads(incoming, max), Stop(incoming, max), rb, max, Result(incoming, false, max, first, rb))
    decreases Weight(incoming)
  {
    if incoming != [] && incoming[0].Bytes? && incoming[0].data != "" {
      var read, rest := Taken(incoming[0].data, max), Left(incoming, max);
      var core, got := Core(read), Reads(incoming, max);
      ResultAfterRead(incoming, false, max, first, rb, core);
      assert got[0] == read && got[1..] == Reads(rest, max);
      assert rb == "" ==> rb + CString(core) == CString(core);
      if EndsLine(read) {
        EndsHere(got, Stop(incoming, max), rb, max, rest);
      } else {
        assert core == "" ==> rb + CString(core) == rb;
        OutcomeFrom(rest, max, first && core == "", rb + CString(core));
        GoesOn(got, Stop(incoming, max), rb, max, Result(incoming, false, max, first, rb));
      }
    }
  }

  lemma OneText(read: string, rb: string)
    ensures rb + Texts([read]) == rb + CString(Core(read))
  {
    assert Texts([read][1..]) == "";
  }

  lemma TextsStep(got: seq<string>, n: nat)
    requires n < |got|
    ensures Texts(got[..n + 1]) == CString(Core(got[0])) + Texts(got[1..][..n])
  {
    assert got[..n + 1][1..] == got[1..][..n];
  }

  /** Exactly when the loop returns a reply, and which, for every sequence of arrivals: if some read ends a
      line, the reply is what was kept of the reads up to the first that does, and these are
      consumed; if none does before the connection closes or fails, the loop reports that, whatever has come. */
  lemma OutcomeExactly(incoming: seq<Arrival>, max: nat)
    requires 0 < max
    ensures Outcomes(Reads(incoming, max), Stop(incoming, max), "", max, Result(incoming, false, max, true, ""))
    ensures Result(incoming, false, max, true, "").0.Reply? <==> SomeEnd(Reads(incoming, max))
  {
    OutcomeFrom(incoming, max, true, "");
    StopIsNoReply(incoming, max);
    EitherOutcome(Reads(incoming, max), Stop(incoming, max), "", max, Result(incoming, false, max, true, ""));
  }

  ghost predicate SomeEnd(got: seq<string>)
  {
    exists i :: 0 <= i < |got| && EndsLine(got[i])
  }

  lemma EitherOutcome(got: seq<string>, stop: Outcome, rb: string, max: nat, result: (Outcome, seq<Arrival>))
    requires 0 < max && Outcomes(got, stop, rb, max, result) && !stop.Reply?
    ensures result.0.Reply? <==> SomeEnd(got)
  {
    if i :| 0 <= i < |got| && EndsLine(got[i]) {
      var n := SomeFirstEnd(got, i);
      assert result.0 == Reply(rb + Texts(got[..n + 1]));
    }
  }

  lemma {:induction false} SomeFirstEnd(got: seq<string>, i: nat) returns (n: nat)
    requires i < |got| && EndsLine(got[i])
    ensures FirstEnd(got, n)
    decreases i
  {
    if j :| 0 <= j < i && EndsLine(got[j]) {
      n := SomeFirstEnd(got, j);
    } else {
      n := i;
    }
  }

  lemma {:induction false} StopIsNoReply(incoming: seq<Arrival>, max: nat)
    requires 0 < max
    ensures !Stop(incoming, max).Reply?
    decreases Weight(incoming)
  {
    if incoming != [] && incoming[0].Bytes? && incoming[0].data != "" {
      ShorterLeft(incoming, max);
      StopIsNoReply(Left(incoming, max), max);
    }
  }

  /** When the prompt is expected, the first read that brings anything is the answer. */
  lemma {:induction false} PromptIsFirstRead(incoming: seq<Arrival>, max: nat)
    requires 0 < max
    ensures var got, result := Reads(incoming, max), Result(incoming, true, max, true, "");
            && (forall n :: 0 <= n < |got| && Core(got[n]) != "" && (forall i :: 0 <= i < n ==> Core(got[i]) == "") ==>
                  result.0 == Reply(CString(Core(got[n]))))
            && ((forall i :: 0 <= i < |got| ==> Core(got[i]) == "") ==> result.0 == Stop(incoming, max))
    decreases Weight(incoming)
  {
    if incoming != [] && incoming[0].Bytes? && incoming[0].data != "" {
      var read, rest := Taken(incoming[0].data, max), Left(incoming, max);
      ResultAfterRead(incoming, true, max, true, "", Core(read));
      assert Reads(incoming, max)[0] == read && Reads(incoming, max)[1..] == Reads(rest, max);
      if Core(read) == "" {
        PromptIsFirstRead(rest, max);
        var got, later := Reads(incoming, max), Reads(rest, max);
        forall i | 0 <= i < |later| ensures later[i] == got[i + 1] {
        }
      }
    }
  }

  // ---- and exactly the clean replies survive being cut up ----

  ghost function OneByteReads(s: string): seq<string>
  {
    seq(|s|, i requires 0 <= i < |s| => [s[i]])
  }

  lemma CoreOfOne(c: char)
    ensures Core([c]) == if c == IDLE then "" else [c]
    ensures CString([c]) == if c == NUL then "" else [c]
  {
    assert DropLeading([c]) == if c == IDLE then DropLeading([c][1..]) else [c];
    assert CString([c]) == if c == NUL then "" else [c] + CString([c][1..]);
  }

  /** Read byte by byte, a text up to its first newline loses its NULs and idle characters. */
  ghost function Kept(s: string): string
  {
    if s == "" then ""
    else (if s[0] == NUL || s[0] == IDLE then "" else [s[0]]) + if s[0] == '\n' then "" else Kept(s[1..])
  }

  lemma {:induction false} KeptShorter(s: string)
    ensures |Kept(s)| <= |s|
    ensures |Kept(s)| == |s| <==> NUL !in s && IDLE !in s && forall i :: 0 <= i < |s| - 1 ==> s[i] != '\n'
    ensures |Kept(s)| == |s| ==> Kept(s) == s
  {
    if s != "" {
      KeptShorter(s[1..]);
      if |Kept(s)| == |s| {
        assert s == [s[0]] + s[1..];
      }
    }
  }

  lemma Associative(a: string, b: string, c: string)
    ensures a + b + c == a + (b + c)
  {
  }

  lemma {:induction false} OneByteResult(s: string, max: nat, first: bool, rb: string)
    requires 0 < max && '\n' in s && (first ==> rb == "")
    ensures Result(AsArrivals(OneByteReads(s)), false, max, first, rb).0 == Reply(rb + Kept(s))
    decreases |s|
  {
    var a := AsArrivals(OneByteReads(s));
    assert a[1..] == AsArrivals(OneByteReads(s[1..]));
    CoreOfOne(s[0]);
    ResultAfterRead(a, false, max, first, rb, Core([s[0]]));
    if s[0] != '\n' {
      var kept := if s[0] == NUL || s[0] == IDLE then "" else [s[0]];
      OneByteResult(s[1..], max, first && s[0] == IDLE, rb + kept);
      Associative(rb, kept, Kept(s[1..]));
      assert rb + "" == rb;
    } else {
      assert Kept(s) == [s[0]] + "";
    }
  }

  /** A reply that ends in a newline is returned whole for every way of cutting it up if and only
      if it is clean, and reading it byte by byte already decides this. */
  lemma OneByteReadsDecide(reply: string, max: nat)
    requires 0 < max && reply != "" && reply[|reply| - 1] == '\n'
    ensures Result(AsArrivals(OneByteReads(reply)), false, max, true, "").0 == Reply(reply) <==> Clean(reply)
  {
    OneByteResult(reply, max, true, "");
    assert "" + Kept(reply) == Kept(reply);
    KeptShorter(reply);
  }
}
