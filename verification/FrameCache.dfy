/** The simple backend's cache of frames already sent, over an acyclic hierarchy of frames. */
module FrameCache {
  import opened Wrappers
  import Sexpr
  import RawNames

  /** A frame has a name and the frames below it. */
  datatype Frame = Frame(name: string, out: seq<Frame>)

  /** The two maps: frames to their short names, and names to their frames. */
  datatype Cache = Cache(frames: map<Frame, string>, ids: map<string, Frame>)

  const EMPTY := Cache(map[], map[])

  function Shorty(name: string): string
  {
    "(AtomSpace \"" + name + "\")"
  }

  function EncodeFrame(f: Frame): string
    decreases f, 1
  {
    "(AtomSpace \"" + f.name + "\"" + EncodeAll(f.out) + ")"
  }

  function EncodeAll(fs: seq<Frame>): string
    decreases fs, 0
  {
    if fs == [] then "" else " " + EncodeFrame(fs[0]) + EncodeAll(fs[1..])
  }

  /** Inserting leaves what a map already has. */
  function Insert<K, V>(m: map<K, V>, k: K, v: V): map<K, V>
  {
    if k in m then m else m[k := v]
  }

  /** The frames below come first. */
  function Cached(c: Cache, f: Frame): Cache
    decreases f, 1
  {
    var below := CachedAll(c, f.out);
    Cache(Insert(below.frames, f, Shorty(f.name)), Insert(below.ids, f.name, f))
  }

  function CachedAll(c: Cache, fs: seq<Frame>): Cache
    decreases fs, 0
  {
    if fs == [] then c else Cached(CachedAll(c, fs[..|fs| - 1]), fs[|fs| - 1])
  }

  /** A frame and everything below it. */
  function Below(f: Frame): set<Frame>
    decreases f, 1
  {
    {f} + BelowAll(f.out)
  }

  function BelowAll(fs: seq<Frame>): set<Frame>
    decreases fs, 0
  {
    if fs == [] then {} else BelowAll(fs[..|fs| - 1]) + Below(fs[|fs| - 1])
  }

  /** Writing a frame, by itself or as a hierarchy, and clearing. */
  datatype Call = Write(frame: Frame) | Kill

  function Step(c: Cache, a: Call): Cache
  {
    match a
    case Write(f) => if f in c.frames then c else Cached(c, f)
    case Kill => EMPTY
  }

  const CLEAR := "(cog-atomspace-clear)\n"

  function Definition(f: Frame): string
  {
    "(define *-bogus-top-space-* " + EncodeFrame(f) + ")\n"
  }

  /** The messages that a call sends. */
  function Told(c: Cache, a: Call): seq<string>
  {
    match a
    case Write(f) => if f in c.frames then [] else [Definition(f)]
    case Kill => [CLEAR]
  }

  class Store {
    var multiSpace: bool
    var frames: map<Frame, string>
    var ids: map<string, Frame>
    var sent: seq<string>

    function View(): Cache
      reads this
    {
      Cache(frames, ids)
    }

    constructor ()
      ensures View() == EMPTY && sent == [] && !multiSpace
    {
      multiSpace, frames, ids, sent := false, map[], map[], [];
    }

    method CacheFrame(f: Frame)
      modifies this`frames, this`ids
      ensures View() == Cached(old(View()), f)
      decreases f
    {
      var i := 0;
      while i < |f.out|
        invariant i <= |f.out| && View() == CachedAll(old(View()), f.out[..i])
      {
        CacheFrame(f.out[i]);
        i := i + 1;
        assert f.out[..i][..i - 1] == f.out[..i - 1];
      }
      assert f.out[..i] == f.out;
      frames := Insert(frames, f, Shorty(f.name));
      ids := Insert(ids, f.name, f);
    }

    /** A frame is sent, with all that is below it, only if it is not in the cache. */
    method WriteFrame(f: Frame) returns (short: string)
      modifies this
      ensures View() == Step(old(View()), Write(f)) && sent == old(sent) + Told(old(View()), Write(f))
      ensures multiSpace == (old(multiSpace) || f !in old(frames))
      ensures short == if f in old(frames) then old(frames)[f] else Shorty(f.name)
    {
      if f in frames {
        assert sent + [] == sent;
        return frames[f];
      }
      multiSpace := true;
      sent := sent + [Definition(f)];
      CacheFrame(f);
      short := Shorty(f.name);
    }

    method StoreFrameDAG(top: Frame)
      modifies this
      ensures View() == Step(old(View()), Write(top)) && sent == old(sent) + Told(old(View()), Write(top))
      ensures multiSpace
    {
      var short := WriteFrame(top);
      multiSpace := true;
    }

    method KillData()
      modifies this
      ensures View() == Step(old(View()), Kill) && sent == old(sent) + Told(old(View()), Kill)
      ensures !multiSpace
    {
      sent := sent + [CLEAR];
      multiSpace := false;
      frames, ids := map[], map[];
    }
  }

  // ---- runs ----

  function After(calls: seq<Call>): Cache
  {
    if calls == [] then EMPTY else Step(After(calls[..|calls| - 1]), calls[|calls| - 1])
  }

  /** All messages sent by a run. */
  function Messages(calls: seq<Call>): seq<string>
  {
    if calls == [] then []
    else Messages(calls[..|calls| - 1]) + Told(After(calls[..|calls| - 1]), calls[|calls| - 1])
  }

  /** One more call continues a run as the methods of the class continue their state. */
  lemma OneMoreCall(calls: seq<Call>, a: Call)
    ensures After(calls + [a]) == Step(After(calls), a)
    ensures Messages(calls + [a]) == Messages(calls) + Told(After(calls), a)
  {
    assert (calls + [a])[..|calls|] == calls;
  }

  /** The frames written since the last clearing, with everything below them. */
  function Known(calls: seq<Call>): set<Frame>
  {
    if calls == [] then {}
    else
      match calls[|calls| - 1]
      case Write(f) => Known(calls[..|calls| - 1]) + Below(f)
      case Kill => {}
  }

  // ---- what is cached ----

  lemma {:induction false} CachedKeys(c: Cache, f: Frame)
    ensures Cached(c, f).frames.Keys == c.frames.Keys + Below(f)
    decreases f, 1
  {
    CachedAllKeys(c, f.out);
  }

  lemma {:induction false} CachedAllKeys(c: Cache, fs: seq<Frame>)
    ensures CachedAll(c, fs).frames.Keys == c.frames.Keys + BelowAll(fs)
    decreases fs, 0
  {
    if fs != [] {
      CachedAllKeys(c, fs[..|fs| - 1]);
      CachedKeys(CachedAll(c, fs[..|fs| - 1]), fs[|fs| - 1]);
    }
  }

  /** Closed under the frames below. */
  ghost predicate Closed(s: set<Frame>)
  {
    forall f <- s :: Below(f) <= s
  }

  lemma {:induction false} BelowIsClosed(f: Frame)
    ensures Closed(Below(f))
    decreases f, 1
  {
    BelowAllIsClosed(f.out);
  }

  lemma {:induction false} BelowAllIsClosed(fs: seq<Frame>)
    ensures Closed(BelowAll(fs))
    decreases fs, 0
  {
    if fs != [] {
      BelowAllIsClosed(fs[..|fs| - 1]);
      BelowIsClosed(fs[|fs| - 1]);
    }
  }

  lemma {:induction false} DirectlyBelow(fs: seq<Frame>, g: Frame)
    requires g in fs
    ensures Below(g) <= BelowAll(fs)
  {
    if g != fs[|fs| - 1] {
      assert fs == fs[..|fs| - 1] + [fs[|fs| - 1]];
      DirectlyBelow(fs[..|fs| - 1], g);
    }
  }

  /** In any run the cache holds exactly the frames written since the last clearing and those below
      them; it is closed under outgoing sets. */
  lemma {:induction false} CacheIsKnown(calls: seq<Call>)
    ensures After(calls).frames.Keys == Known(calls) && Closed(Known(calls))
    ensures forall f <- After(calls).frames, g <- f.out :: g in After(calls).frames
  {
    if calls != [] {
      var init := calls[..|calls| - 1];
      CacheIsKnown(init);
      if calls[|calls| - 1].Write? {
        var f := calls[|calls| - 1].frame;
        CachedKeys(After(init), f);
        BelowIsClosed(f);
      }
    }
    forall f, g | f in After(calls).frames && g in f.out ensures g in After(calls).frames {
      DirectlyBelow(f.out, g);
      assert g in Below(g) && Below(f) <= Known(calls);
    }
  }

  /** A call that writes a frame sends its definition exactly when the frame has not been written, and
      is not below a frame that has been written, since the last clearing; otherwise nothing. */
  lemma SentExactlyWhenNew(calls: seq<Call>, f: Frame)
    ensures Messages(calls + [Write(f)]) == Messages(calls) + if f in Known(calls) then [] else [Definition(f)]
  {
    OneMoreCall(calls, Write(f));
    CacheIsKnown(calls);
  }

  /** Once a frame has been written, neither it nor anything below it is sent again until the data
      are killed. */
  lemma SentOnlyWhenNew(calls: seq<Call>, i: nat, j: nat)
    requires i < j < |calls| && calls[i].Write? && calls[j].Write?
    requires forall k :: i < k < j ==> !calls[k].Kill?
    requires calls[j].frame in Below(calls[i].frame)
    ensures Messages(calls[..j + 1]) == Messages(calls[..j])
  {
    assert calls[..j + 1] == calls[..j] + [calls[j]];
    SentExactlyWhenNew(calls[..j], calls[j].frame);
    StaysKnown(calls, i, j);
  }

  lemma {:induction false} StaysKnown(calls: seq<Call>, i: nat, j: nat)
    requires i < j <= |calls| && calls[i].Write? && forall k :: i < k < j ==> !calls[k].Kill?
    ensures Below(calls[i].frame) <= Known(calls[..j])
    decreases j
  {
    assert calls[..j][..j - 1] == calls[..j - 1];
    if i < j - 1 {
      StaysKnown(calls, i, j - 1);
    }
  }

  // ---- the two maps ----

  /** Short names are right, and every name of a cached frame leads to a cached frame of that name. */
  ghost predicate Sound(c: Cache)
  {
    && (forall f <- c.frames :: c.frames[f] == Shorty(f.name) && f.name in c.ids)
    && (forall n <- c.ids :: c.ids[n] in c.frames && c.ids[n].name == n)
  }

  ghost predicate DistinctNames(s: set<Frame>)
  {
    forall f, g :: f in s && g in s && f.name == g.name ==> f == g
  }

  ghost predicate MutuallyInverse(c: Cache)
  {
    && (forall f <- c.frames :: f.name in c.ids && c.ids[f.name] == f)
    && (forall n <- c.ids :: c.ids[n] in c.frames && c.ids[n].name == n)
  }

  lemma {:induction false} CachedSound(c: Cache, f: Frame)
    requires Sound(c)
    ensures Sound(Cached(c, f))
    decreases f, 1
  {
    CachedAllSound(c, f.out);
  }

  lemma {:induction false} CachedAllSound(c: Cache, fs: seq<Frame>)
    requires Sound(c)
    ensures Sound(CachedAll(c, fs))
    decreases fs, 0
  {
    if fs != [] {
      CachedAllSound(c, fs[..|fs| - 1]);
      CachedSound(CachedAll(c, fs[..|fs| - 1]), fs[|fs| - 1]);
    }
  }

  lemma {:induction false} RunsAreSound(calls: seq<Call>)
    ensures Sound(After(calls))
  {
    if calls != [] {
      RunsAreSound(calls[..|calls| - 1]);
      if calls[|calls| - 1].Write? {
        CachedSound(After(calls[..|calls| - 1]), calls[|calls| - 1].frame);
      }
    }
  }

  /** The maps of a run are inverse to each other exactly when no two different frames written, or
      below frames written, since the last clearing have the same name. */
  lemma InverseExactlyWhenNamesDiffer(calls: seq<Call>)
    ensures MutuallyInverse(After(calls)) <==> DistinctNames(Known(calls))
  {
    RunsAreSound(calls);
    CacheIsKnown(calls);
  }

  // ---- what the messages tell the server ----

  const FRAME_START := "(AtomSpace \""
  const DEFINE := "(define *-bogus-top-space-* "

  /** Reads one frame from the start of a text: a quoted name, and the frames below it, each after a blank. */
  function ReadFrame(s: string): (r: Option<(Frame, string)>)
    decreases |s|, 0
    ensures r.Some? ==> |r.value.1| < |s|
  {
    if !(FRAME_START <= s) then None
    else
      var name := Sexpr.Unquote(s[|FRAME_START|..]);
      if name.None? then None
      else
        var below := ReadFrames(name.value.1);
        if below.None? || below.value.1 == "" || below.value.1[0] != ')' then None
        else Some((Frame(name.value.0, below.value.0), below.value.1[1..]))
  }

  function ReadFrames(s: string): (r: Option<(seq<Frame>, string)>)
    decreases |s|, 1
    ensures r.Some? ==> |r.value.1| <= |s|
  {
    if s == "" || s[0] != ' ' then Some(([], s))
    else
      var first := ReadFrame(s[1..]);
      if first.None? then None
      else
        var more := ReadFrames(first.value.1);
        if more.None? then None else Some(([first.value.0] + more.value.0, more.value.1))
  }

  /** The frame that a message defines. */
  function ReadDefinition(msg: string): Option<Frame>
  {
    if !(DEFINE <= msg) then None
    else
      var r := ReadFrame(msg[|DEFINE|..]);
      if r.Some? && r.value.1 == ")\n" then Some(r.value.0) else None
  }

  /** No name in the hierarchy has quotes or backslashes, which are not escaped in frames. */
  predicate PlainFrame(f: Frame)
  {
    RawNames.PlainName(f.name) && forall g <- f.out :: PlainFrame(g)
  }

  lemma FrameShape(f: Frame, tail: string)
    ensures EncodeFrame(f) + tail == FRAME_START + ((f.name + "\"") + (EncodeAll(f.out) + (")" + tail)))
  {
  }

  lemma NameReads(name: string, tail: string)
    requires RawNames.PlainName(name)
    ensures Sexpr.Unquote((name + "\"") + tail) == Some((name, tail))
  {
    RawNames.EscapeLonger(name);
    Sexpr.UnquoteInvertsEscape(name, tail);
  }

  /** Reading a frame inverts writing it, whatever follows. */
  lemma {:induction false} ReadInvertsEncode(f: Frame, tail: string)
    requires PlainFrame(f)
    ensures ReadFrame(EncodeFrame(f) + tail) == Some((f, tail))
    decreases f, 1
  {
    var rest := EncodeAll(f.out) + (")" + tail);
    FrameShape(f, tail);
    assert (EncodeFrame(f) + tail)[|FRAME_START|..] == (f.name + "\"") + rest;
    NameReads(f.name, rest);
    ReadAllInvertsEncodeAll(f.out, ")" + tail);
    assert (")" + tail)[1..] == tail;
  }

  lemma AllShape(fs: seq<Frame>, tail: string)
    requires fs != []
    ensures EncodeAll(fs) + tail == " " + (EncodeFrame(fs[0]) + (EncodeAll(fs[1..]) + tail))
  {
    FourParts(" ", EncodeFrame(fs[0]), EncodeAll(fs[1..]), tail);
  }

  lemma FourParts(a: string, b: string, c: string, d: string)
    ensures a + b + c + d == a + (b + (c + d))
  {
  }

  /** A blank, a frame, and more frames. */
  lemma FirstRead(f: Frame, rest: string)
    requires ReadFrame(EncodeFrame(f) + rest) == Some((f, rest))
    ensures ReadFrames(" " + (EncodeFrame(f) + rest))
         == (var more := ReadFrames(rest); if more.None? then None else Some(([f] + more.value.0, more.value.1)))
  {
    assert (" " + (EncodeFrame(f) + rest))[1..] == EncodeFrame(f) + rest;
  }

  lemma {:induction false} ReadAllInvertsEncodeAll(fs: seq<Frame>, tail: string)
    requires (forall f <- fs :: PlainFrame(f)) && (tail == "" || tail[0] != ' ')
    ensures ReadFrames(EncodeAll(fs) + tail) == Some((fs, tail))
    decreases fs, 0
  {
    if fs == [] {
      assert EncodeAll(fs) + tail == tail;
    } else {
      assert fs[0] in fs;
      AllShape(fs, tail);
      ReadInvertsEncode(fs[0], EncodeAll(fs[1..]) + tail);
      FirstRead(fs[0], EncodeAll(fs[1..]) + tail);
      ReadAllInvertsEncodeAll(fs[1..], tail);
      assert [fs[0]] + fs[1..] == fs;
    }
  }

  /** A definition is read as defining its frame. */
  lemma DefinitionReads(f: Frame)
    requires PlainFrame(f)
    ensures ReadDefinition(Definition(f)) == Some(f)
  {
    ReadInvertsEncode(f, ")\n");
    DefinitionStarts(EncodeFrame(f));
  }

  lemma DefinitionStarts(t: string)
    ensures var msg := "(define *-bogus-top-space-* " + t + ")\n"; DEFINE <= msg && msg[|DEFINE|..] == t + ")\n"
  {
  }

  /** The short name stands for a frame of that name. */
  lemma ShortNameReads(name: string)
    requires RawNames.PlainName(name)
    ensures ReadFrame(Shorty(name)) == Some((Frame(name, []), ""))
  {
    var alone := Frame(name, []);
    ReadInvertsEncode(alone, "");
    assert EncodeFrame(alone) + "" == Shorty(name);
  }

  /** The frame stands in the hierarchy at the place to which the indices lead. */
  ghost predicate StandsAt(f: Frame, path: seq<nat>, g: Frame)
    decreases |path|
  {
    if path == [] then f == g else path[0] < |f.out| && StandsAt(f.out[path[0]], path[1..], g)
  }

  ghost predicate Contains(f: Frame, g: Frame)
  {
    exists path :: StandsAt(f, path, g)
  }

  lemma {:induction false} BelowIsContained(f: Frame, g: Frame)
    ensures g in Below(f) <==> Contains(f, g)
    decreases f, 1
  {
    BelowAllIsContained(f.out, g);
    assert StandsAt(f, [], f);
    forall i: nat, path | i < |f.out| && StandsAt(f.out[i], path, g) ensures Contains(f, g) {
      assert ([i] + path)[1..] == path;
      assert StandsAt(f, [i] + path, g);
    }
    forall path | StandsAt(f, path, g) ensures g == f || exists i :: 0 <= i < |f.out| && Contains(f.out[i], g) {
      if path != [] {
        assert StandsAt(f.out[path[0]], path[1..], g);
      }
    }
  }

  lemma {:induction false} BelowAllIsContained(fs: seq<Frame>, g: Frame)
    ensures g in BelowAll(fs) <==> exists i :: 0 <= i < |fs| && Contains(fs[i], g)
    decreases fs, 0
  {
    if fs != [] {
      var init := fs[..|fs| - 1];
      BelowAllIsContained(init, g);
      BelowIsContained(fs[|fs| - 1], g);
      assert forall i :: 0 <= i < |init| ==> init[i] == fs[i];
    }
  }

  ghost predicate Teaches(msg: string, g: Frame)
  {
    ReadDefinition(msg).Some? && Contains(ReadDefinition(msg).value, g)
  }

  /** The frame stands in a definition sent after the last clearing. */
  ghost predicate Taught(messages: seq<string>, g: Frame)
  {
    exists i :: 0 <= i < |messages| && Teaches(messages[i], g) && "(cog-atomspace-clear)\n" !in messages[i..]
  }

  lemma TaughtMore(messages: seq<string>, msg: string, g: Frame)
    ensures Taught(messages + [msg], g) <==> msg != "(cog-atomspace-clear)\n" && (Teaches(msg, g) || Taught(messages, g))
  {
    var all, n := messages + [msg], |messages|;
    forall i | 0 <= i < n ensures all[i] == messages[i] && all[i..] == messages[i..] + [msg] {
    }
    assert all[n] == msg && all[n..] == [msg];
  }

  lemma ClearTeachesNothing(f: Frame)
    ensures Definition(f) != "(cog-atomspace-clear)\n"
  {
    assert Definition(f)[1] == 'd';
  }

  /** Exactly the frames that the cache holds, and so are not sent again, stand in definitions that have been
      sent since the last clearing, as the server reads them. */
  lemma {:induction false} KnownIsTaught(calls: seq<Call>, g: Frame)
    requires forall a <- calls :: a.Write? ==> PlainFrame(a.frame)
    ensures g in Known(calls) <==> Taught(Messages(calls), g)
  {
    if calls != [] {
      var init, last := calls[..|calls| - 1], calls[|calls| - 1];
      KnownIsTaught(init, g);
      CacheIsKnown(init);
      match last
      case Kill => TaughtMore(Messages(init), CLEAR, g);
      case Write(f) =>
        if f in Known(init) {
          assert Messages(init) + [] == Messages(init);
        } else {
          DefinitionReads(f);
          ClearTeachesNothing(f);
          BelowIsContained(f, g);
          TaughtMore(Messages(init), Definition(f), g);
        }
    }
  }
}
