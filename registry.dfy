/**
 The reload broker: a registry of subscribed event-stream connections keyed
 by the client's remote address, and the broadcast of the reload frame to
 all of them (serve.go:14-78; server.go:10-74 is the same code).

 Locking is left out: every operation is one sequential step, and the wait
 of a subscriber for its request to end splits its handler into Subscribe
 and Cancel.
 */
module Registry {
  import opened Text
  import opened EventStream

  /** The frame of the reload event: one unnamed event with a single `data` field, ended by a blank line. */
  const ReloadFrame: string := "data: reload\n\n"

  /** What a browser's EventSource makes of one reload frame. */
  const ReloadEvent := Event(DefaultKind, "reload")

  const InternalServerError := 500

  /** How a subscribe request ends: refused with an HTTP status and message, or kept open as a stream. */
  datatype Reply = Refused(status: nat, message: string) | Streaming

  /**
   The response writer of one subscribe request. Whether it supports
   incremental flushing and whether writes to it fail (the client is gone)
   are fixed for its lifetime; `out` is what has been written to the client's stream and
   `flushes` counts the flushes.
   */
  class Writer {
    const canFlush: bool
    const broken: bool
    var out: string
    var flushes: nat

    constructor (canFlush: bool, broken: bool)
      ensures this.canFlush == canFlush && this.broken == broken
      ensures out == [] && flushes == 0
    {
      this.canFlush := canFlush;
      this.broken := broken;
      out := [];
      flushes := 0;
    }

    /** Write `data`; it is appended to the stream exactly when the writer is not broken. */
    method Write(data: string) returns (ok: bool)
      modifies this
      ensures ok == !broken
      ensures out == (if ok then old(out) + data else old(out))
      ensures flushes == old(flushes)
    {
      ok := !broken;
      if ok {
        out := out + data;
      }
    }

    method Flush()
      requires canFlush
      modifies this
      ensures out == old(out) && flushes == old(flushes) + 1
    {
      flushes := flushes + 1;
    }
  }

  /** Every registered writer can flush, and no writer is registered under two keys. */
  predicate Wellformed(m: map<string, Writer>)
  {
    && (forall k :: k in m ==> m[k].canFlush)
    && (forall k1, k2 :: k1 in m && k2 in m && m[k1] == m[k2] ==> k1 == k2)
  }

  /** The registry after registering `w` under `key`. */
  function Registered(m: map<string, Writer>, key: string, w: Writer): (r: map<string, Writer>)
    ensures key in r && r[key] == w
    ensures forall k :: k != key ==> (k in r <==> k in m)
    ensures forall k :: k != key && k in m ==> r[k] == m[k]
  {
    m[key := w]
  }

  /** The registry after removing `key`. */
  function Removed(m: map<string, Writer>, key: string): (r: map<string, Writer>)
    ensures key !in r
    ensures forall k :: k != key ==> (k in r <==> k in m)
    ensures forall k :: k in r ==> r[k] == m[k]
  {
    m - {key}
  }

  /** The keys whose writes fail. */
  function Failed(m: map<string, Writer>): set<string>
  {
    set k | k in m && m[k].broken
  }

  /** The registry after a broadcast: the entries whose write succeeded. */
  function Survivors(m: map<string, Writer>): (r: map<string, Writer>)
    ensures forall k :: k in r <==> k in m && !m[k].broken
    ensures forall k :: k in r ==> r[k] == m[k]
  {
    map k | k in m && !m[k].broken :: m[k]
  }

  /** The registry of a broadcast under way: the keys not yet visited, and the visited ones whose write succeeded. */
  function Kept(m: map<string, Writer>, pending: set<string>): (r: map<string, Writer>)
  {
    map k | k in m && (k in pending || !m[k].broken) :: m[k]
  }

  /** Visiting one more key keeps it if its write succeeds and drops it if its write fails. */
  lemma KeptStep(m: map<string, Writer>, pending: set<string>, key: string)
    requires key in pending && key in m
    ensures Kept(m, pending - {key}) == if m[key].broken then Kept(m, pending) - {key} else Kept(m, pending)
  {
  }

  /** Once every key is visited, what is kept is the survivors. */
  lemma KeptAll(m: map<string, Writer>)
    ensures Kept(m, {}) == Survivors(m)
  {
  }

  class Broker {
    var connections: map<string, Writer>

    ghost predicate Valid()
      reads this
    {
      Wellformed(connections)
    }

    constructor ()
      ensures Valid() && connections == map[]
    {
      connections := map[];
    }

    /** Store `w` under `key`, overwriting any earlier entry for `key`. */
    method Register(key: string, w: Writer)
      requires Valid() && w.canFlush
      requires w !in connections.Values
      modifies this
      ensures Valid()
      ensures connections == Registered(old(connections), key, w)
    {
      connections := connections[key := w];
    }

    /** Remove `key`; removing an absent key changes nothing. */
    method Remove(key: string)
      requires Valid()
      modifies this
      ensures Valid()
      ensures connections == Removed(old(connections), key)
    {
      connections := connections - {key};
    }

    /**
     The subscribe handler up to its wait: a writer that cannot flush is
     refused with 500 "streaming unsupported" and nothing is registered;
     otherwise the writer is registered under the client's key. `w` is the
     writer of a new request, so it is not registered yet.
     */
    method Subscribe(key: string, w: Writer) returns (r: Reply)
      requires Valid()
      requires w !in connections.Values
      modifies this
      ensures Valid()
      ensures !w.canFlush ==> r == Refused(InternalServerError, "streaming unsupported") && connections == old(connections)
      ensures w.canFlush ==> r == Streaming && connections == Registered(old(connections), key, w)
    {
      if !w.canFlush {
        return Refused(InternalServerError, "streaming unsupported");
      }
      Register(key, w);
      r := Streaming;
    }

    /** The subscribe handler after its request has ended: the client's key is removed. */
    method Cancel(key: string)
      requires Valid()
      modifies this
      ensures Valid()
      ensures connections == Removed(old(connections), key)
    {
      Remove(key);
    }

    /**
     Broadcast the reload frame. Every connection registered at the start is
     written once; a connection whose write succeeded receives the frame and
     is flushed once, a connection whose write failed receives nothing and
     is removed, and the others are served all the same. The keys are
     visited in an arbitrary order.
     */
    method SendReload()
      requires Valid()
      modifies this, connections.Values
      ensures Valid()
      ensures connections == Survivors(old(connections))
      ensures forall k :: k in old(connections) && !old(connections)[k].broken ==>
        old(connections)[k].out == old(connections[k].out) + ReloadFrame &&
        old(connections)[k].flushes == old(connections[k].flushes) + 1
      ensures forall k :: k in old(connections) && old(connections)[k].broken ==>
        old(connections)[k].out == old(connections[k].out) &&
        old(connections)[k].flushes == old(connections[k].flushes)
    {
      ghost var start := connections;
      var pending := connections.Keys;
      while pending != {}
        invariant pending <= start.Keys
        invariant connections == Kept(start, pending)
        invariant forall k :: k in start && k !in pending && !start[k].broken ==>
          start[k].out == old(start[k].out) + ReloadFrame && start[k].flushes == old(start[k].flushes) + 1
        invariant forall k :: k in start && (k in pending || start[k].broken) ==>
          start[k].out == old(start[k].out) && start[k].flushes == old(start[k].flushes)
        decreases pending
      {
        var key :| key in pending;
        var w := connections[key];
        assert w == start[key] && w in start.Values;
        KeptStep(start, pending, key);
        var ok := w.Write(ReloadFrame);
        if !ok {
          Remove(key);
        } else {
          w.Flush();
        }
        pending := pending - {key};
      }
      KeptAll(start);
    }
  }

  /** Removing a key twice is removing it once, and removing an absent key changes nothing. */
  lemma RemoveIdempotent(m: map<string, Writer>, key: string)
    ensures Removed(Removed(m, key), key) == Removed(m, key)
    ensures key !in m ==> Removed(m, key) == m
  {
  }

  /**
   Cancelling a subscription removes the client's key, whether it still maps
   to this subscriber's writer or a later subscriber with the same key has
   overwritten it; every other entry is as before the subscription.
   */
  lemma CancelUndoesSubscribe(m: map<string, Writer>, key: string, w: Writer, later: Writer)
    ensures Removed(Registered(m, key, w), key) == Removed(m, key)
    ensures Removed(Registered(Registered(m, key, w), key, later), key) == Removed(m, key)
  {
  }

  /** After a broadcast the registry holds one entry per connection whose write did not fail. */
  lemma SurvivorCount(m: map<string, Writer>)
    ensures |Survivors(m)| == |m| - |Failed(m)|
  {
    var kept := Survivors(m).Keys;
    assert m.Keys == kept + Failed(m);
    assert kept !! Failed(m);
    assert |m.Keys| == |kept| + |Failed(m)|;
  }

  /**
   A second broadcast removes nothing more while no subscribed client leaves;
   in the model a writer's failure is fixed for its lifetime.
   */
  lemma SurvivorsStable(m: map<string, Writer>)
    ensures Survivors(Survivors(m)) == Survivors(m)
    ensures Failed(Survivors(m)) == {}
  {
  }

  /** The colon of the frame's only field line is at index 4. */
  lemma DataLineColon()
    ensures FindFirst("data: reload", ":") == Some(4)
  {
    var text := "data: reload";
    assert MatchAt(text, ":", 4);
    forall j | 0 <= j < 4 ensures !MatchAt(text, ":", j) {
      assert text[j..j + 1] == [text[j]];
    }
    assert FirstMatch(text, ":", 4);
    match FindFirst(text, ":")
    case Some(i) => FirstMatchUnique(text, ":", i, 4);
    case None =>
  }

  /** The frame's field line puts "reload" and a line feed in the empty data buffer. */
  lemma DataLine(st: Parser)
    requires Idle(st)
    ensures ProcessLine(st, "data: reload") == st.(data := "reload\n")
  {
    var text := "data: reload";
    DataLineColon();
    assert text != [] && text[0] != ':';
    assert text[..4] == "data";
    var v := text[5..];
    assert v == " reload" && v[0] == ' ';
    assert v[1..] == "reload";
    assert ProcessLine(st, text) == Field(st, "data", "reload");
    assert st.data + "reload" + "\n" == "reload\n";
  }

  /** The end of the frame's field line fills the empty data buffer. */
  lemma DataLineEnds(st: Parser)
    requires Idle(st)
    ensures Feed(st.(line := "data: reload"), '\n') == st.(data := "reload\n")
  {
    assert st.(line := "data: reload").(line := [], afterCR := false) == st;
    DataLine(st);
  }

  /** The blank line that ends the frame dispatches the reload event and empties the buffers. */
  lemma BlankLineDispatchesReload(st: Parser)
    requires Idle(st)
    ensures Feed(st.(data := "reload\n"), '\n') == st.(events := st.events + [ReloadEvent])
  {
    var filled := st.(data := "reload\n");
    assert "reload\n"[..6] == "reload";
    assert Dispatch(filled) == st.(events := st.events + [ReloadEvent]);
    assert ProcessLine(filled, []) == Dispatch(filled);
  }

  /** A client reads one reload frame as exactly one unnamed event whose data is "reload". */
  lemma ReloadFrameIsOneEvent(st: Parser)
    requires Idle(st)
    ensures Run(st, ReloadFrame) == st.(events := st.events + [ReloadEvent])
  {
    LineThenBlank(st, "data: reload", ReloadFrame);
    DataLineEnds(st);
    BlankLineDispatchesReload(st);
  }

  /**
   A client that has received `n` reload frames has seen `n` separate
   "message" events, none merged with another, so an EventSource's
   `onmessage` handler runs once per reload.
   */
  lemma {:induction false} ReloadsAreSeparateEvents(n: nat)
    ensures Events(Repeat(ReloadFrame, n)) == seq(n, _ => ReloadEvent)
  {
    FramesFromIdle(Start, n);
  }

  /** A reload frame at the head of the stream is read as one reload event, then the rest is read. */
  lemma FrameThen(st: Parser, rest: string)
    requires Idle(st)
    ensures Run(st, ReloadFrame + rest) == Run(st.(events := st.events + [ReloadEvent]), rest)
  {
    RunAppend(st, ReloadFrame, rest);
    ReloadFrameIsOneEvent(st);
  }

  lemma {:induction false} FramesFromIdle(st: Parser, n: nat)
    requires Idle(st)
    ensures Run(st, Repeat(ReloadFrame, n)) == st.(events := st.events + seq(n, _ => ReloadEvent))
    decreases n
  {
    if n == 0 {
      assert st.events + seq(0, _ => ReloadEvent) == st.events;
    } else {
      var rest := Repeat(ReloadFrame, n - 1);
      assert Repeat(ReloadFrame, n) == ReloadFrame + rest;
      FrameThen(st, rest);
      var next := st.(events := st.events + [ReloadEvent]);
      FramesFromIdle(next, n - 1);
      assert next.events + seq(n - 1, _ => ReloadEvent) == st.events + seq(n, _ => ReloadEvent);
    }
  }

  /**
   Two clients with distinct keys, two reloads, then one client leaves: each
   client has received two separate frames, and only the other remains.
   */
  method TwoClientsTwoReloads()
  {
    var broker := new Broker();
    var x := new Writer(true, false);
    var y := new Writer(true, false);
    var rx := broker.Subscribe("10.0.0.1:5000", x);
    var ry := broker.Subscribe("10.0.0.2:5000", y);
    assert rx == Streaming && ry == Streaming;
    broker.SendReload();
    broker.SendReload();
    assert x.out == ReloadFrame + ReloadFrame && y.out == x.out;
    assert x.flushes == 2 && y.flushes == 2;
    broker.Cancel("10.0.0.1:5000");
    assert broker.connections == map["10.0.0.2:5000" := y];

    var plain := new Writer(false, false);
    var refused := broker.Subscribe("10.0.0.3:5000", plain);
    assert refused == Refused(500, "streaming unsupported");
    assert broker.connections == map["10.0.0.2:5000" := y];
  }
}
