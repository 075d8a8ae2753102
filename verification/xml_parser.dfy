/**
 * `XMLSimpleParser` from `gg/utils.py`: a thin layer over the Expat parser
 * that checks the root element, then watches for a few element names and,
 * while one of them is open, gathers the attributes and text of everything
 * inside it into one flat dictionary.
 *
 * Expat is replaced by the sequence of events it reports for a file.
 * `MalformedMarkup` stands where Expat stops with an ExpatError.  The
 * handler that Expat would call next is the explicit `phase`: the root
 * handler, the scanning start handler, or the start, data and end handlers
 * installed while an element is tracked.  The two callbacks are recorded in
 * the order they are made; `call_start` is a pure function of its arguments.
 */
module XmlParser {
  import opened Wrappers
  import opened Strings

  type Attributes = map<string, string>

  datatype Event =
    | Start(name: string, attrs: Attributes)
    | Data(text: string)
    | End(name: string)
    | MalformedMarkup

  /** Which handlers Expat calls: replaces `tracking` and the handler assignments. */
  datatype Phase =
    | AwaitingRoot          // StartElementHandler is element_root
    | Scanning              // element_start, no data or end handler
    | Tracking(name: string) // element_start, element_data, element_end

  /** A call the parser makes to the callbacks given to `parse`. */
  datatype Callback =
    | CallStart(name: string, attrs: Attributes)
    | CallEnd(name: string, state: Attributes)

  datatype Outcome = Completed | IOError

  /** The name of the first start tag, which is the root element. */
  function FirstStart(events: seq<Event>): (r: Option<string>)
    ensures r.None? <==> forall k :: 0 <= k < |events| ==> !events[k].Start?
  {
    if events == [] then None
    else if events[0].Start? then Some(events[0].name)
    else
      assert forall k :: 1 <= k < |events| ==> events[k] == events[1..][k - 1];
      FirstStart(events[1..])
  }

  /** The root element is acceptable: no root name is required, or it is the required one. */
  predicate RootAccepted(rootname: Option<string>, events: seq<Event>)
  {
    FirstStart(events).None? || rootname.None? || FirstStart(events).value == rootname.value
  }

  lemma {:induction false} FirstStartAppend(events: seq<Event>, e: Event)
    ensures FirstStart(events + [e]) ==
              if FirstStart(events).Some? then FirstStart(events)
              else if e.Start? then Some(e.name) else None
  {
    if events != [] {
      assert (events + [e])[1..] == events[1..] + [e];
      FirstStartAppend(events[1..], e);
    }
  }

  /** Once the root is among the events read, later events do not change it. */
  lemma {:induction false} FirstStartPrefix(events: seq<Event>, k: nat)
    requires k <= |events| && FirstStart(events[..k]).Some?
    ensures FirstStart(events) == FirstStart(events[..k])
  {
    if events[0].Start? {
      assert events[..k][0] == events[0];
    } else {
      assert events[..k][1..] == events[1..][..k - 1];
      FirstStartPrefix(events[1..], k - 1);
    }
  }

  /** The fields of the parser that the handlers read and write, as one value. */
  datatype Config = Config(phase: Phase, element: Option<string>, state: Attributes)

  /** Tracking keeps the open elements' entries; otherwise the state is empty. */
  predicate Consistent(c: Config)
  {
    && (!c.phase.Tracking? ==> c.state == map[])
    && (c.phase.Tracking? ==> c.element.Some? && c.element.value in c.state && c.phase.name in c.state)
  }

  /** What handling one event does: the next configuration, the callbacks made, and a rejected root. */
  datatype Reaction = Reaction(next: Config, calls: seq<Callback>, rejected: bool)

  /**
   * The handler Expat calls for `event` from the configuration `c`: the root
   * check, the start handler (offer to `call_start` while scanning, record
   * the entry and attributes while tracking), the data handler and the end
   * handler, the last two only while tracking.
   */
  function Step(rootname: Option<string>, watchlist: set<string>, c: Config, event: Event,
                callStart: (string, Attributes) -> bool): (r: Reaction)
    requires Consistent(c) && !event.MalformedMarkup?
    ensures Consistent(r.next)
    ensures r.rejected ==> r.next == c && r.calls == []
    ensures r.next.phase.AwaitingRoot? <==> c.phase.AwaitingRoot? && (r.rejected || !event.Start?)
    ensures r.rejected <==> c.phase.AwaitingRoot? && event.Start? && rootname.Some? && event.name != rootname.value
    ensures c.phase.AwaitingRoot? ==> r.calls == []
    ensures |r.calls| <= 1
  {
    match event
    case Start(name, attrs) =>
      if c.phase.AwaitingRoot? then
        if rootname.Some? && name != rootname.value then Reaction(c, [], true)
        else Reaction(c.(phase := Scanning), [], false)
      else if c.phase.Scanning? then
        if name !in watchlist then Reaction(c, [], false)
        else if callStart(name, attrs) then
          Reaction(Config(Tracking(name), Some(name), c.state[name := ""] + attrs), [CallStart(name, attrs)], false)
        else Reaction(c, [CallStart(name, attrs)], false)
      else
        Reaction(c.(element := Some(name), state := c.state[name := ""] + attrs), [], false)
    case Data(text) =>
      if c.phase.Tracking? && Strip(text, IsUnicodeSpace) != [] then
        var e := c.element.value;
        Reaction(c.(state := c.state[e := c.state[e] + text]), [], false)
      else Reaction(c, [], false)
    case End(name) =>
      if c.phase.Tracking? && name == c.phase.name then
        Reaction(c.(phase := Scanning, state := map[]), [CallEnd(name, c.state)], false)
      else Reaction(c, [], false)
  }

  /** How a parse ends: its outcome, the callbacks made in order, and the configuration it stops in. */
  datatype Trace = Trace(outcome: Outcome, calls: seq<Callback>, last: Config)

  /**
   * Feeding `events` to the handlers from `c`, one `Step` per event, until
   * the end of the input (Completed) or the first malformed markup or
   * rejected root (IOError).
   */
  function Run(rootname: Option<string>, watchlist: set<string>, c: Config, events: seq<Event>,
               callStart: (string, Attributes) -> bool): (t: Trace)
    requires Consistent(c)
    ensures Consistent(t.last)
    ensures |t.calls| <= |events|
    decreases |events|
  {
    if events == [] then Trace(Completed, [], c)
    else if events[0].MalformedMarkup? then Trace(IOError, [], c)
    else
      var r := Step(rootname, watchlist, c, events[0], callStart);
      if r.rejected then Trace(IOError, [], c)
      else
        var rest := Run(rootname, watchlist, r.next, events[1..], callStart);
        Trace(rest.outcome, r.calls + rest.calls, rest.last)
  }

  class XmlSimpleParser {
    const rootname: Option<string>
    const watchlist: set<string>
    var phase: Phase
    var element: Option<string>
    var state: Attributes
    /** `ParseFile` has been called: Expat refuses a second input with ExpatError. */
    var used: bool

    /** Before the parse the root handler is installed, and the fields stay `Consistent`. */
    ghost predicate Valid()
      reads this
    {
      && (!used ==> phase.AwaitingRoot?)
      && Consistent(Config(phase, element, state))
    }

    constructor (rootname: Option<string>, watchlist: set<string>)
      ensures Valid()
      ensures this.rootname == rootname && this.watchlist == watchlist
      ensures phase == AwaitingRoot && element.None? && state == map[] && !used
    {
      this.rootname, this.watchlist := rootname, watchlist;
      phase, element, state, used := AwaitingRoot, None, map[], false;
    }

    /**
     * `element_root`: the first start tag must be the required root when
     * one is given (IOError, reported as `false`, otherwise).  The root is
     * never tracked; later start tags go to `element_start`.
     */
    method ElementRoot(name: string) returns (ok: bool)
      requires Valid() && used && phase.AwaitingRoot?
      modifies this`phase
      ensures Valid()
      ensures ok <==> rootname.None? || name == rootname.value
      ensures phase == if ok then Scanning else AwaitingRoot
    {
      if rootname.Some? && name != rootname.value {
        return false;
      }
      phase := Scanning;
      ok := true;
    }

    /**
     * `element_start`: while scanning, a watched name is offered to
     * `call_start`, and tracking begins when it accepts.  While tracking,
     * every start tag opens an empty entry under its name and merges its
     * attributes into the flat state.
     */
    method ElementStart(name: string, attrs: Attributes, callStart: (string, Attributes) -> bool)
      returns (fired: seq<Callback>)
      requires Valid() && used && !phase.AwaitingRoot?
      modifies this`phase, this`element, this`state
      ensures Valid()
      ensures fired == if old(phase).Scanning? && name in watchlist then [CallStart(name, attrs)] else []
      ensures phase == if old(phase).Scanning? && name in watchlist && callStart(name, attrs)
                       then Tracking(name) else old(phase)
      ensures phase.Tracking? ==> element == Some(name) && state == old(state)[name := ""] + attrs
      ensures !phase.Tracking? ==> element == old(element) && state == old(state)
    {
      fired := [];
      if !phase.Tracking? {
        if name !in watchlist {
          return;
        }
        fired := [CallStart(name, attrs)];
        if callStart(name, attrs) {
          phase := Tracking(name);
        }
      }
      if phase.Tracking? {
        element := Some(name);
        state := state[name := ""] + attrs;
      }
    }

    /**
     * `element_data`: a chunk that is empty or only white space is dropped;
     * any other chunk is appended to the entry of the element started last,
     * even when that element has already closed.
     */
    method ElementData(data: string)
      requires Valid() && used && phase.Tracking?
      modifies this`state
      ensures Valid()
      ensures var e := element.value;
              if Strip(data, IsUnicodeSpace) == [] then state == old(state)
              else state == old(state)[e := old(state)[e] + data]
    {
      if data == [] || Strip(data, IsUnicodeSpace) == [] {
        return;
      }
      var e := element.value;
      state := state[e := state[e] + data];
    }

    /**
     * `element_end`: only the end of the tracked element matters; it hands
     * the gathered state to `call_end` and goes back to scanning with an
     * empty state.
     */
    method ElementEnd(name: string) returns (fired: seq<Callback>)
      requires Valid() && used && phase.Tracking?
      modifies this`phase, this`state
      ensures Valid()
      ensures name != old(phase).name ==> fired == [] && phase == old(phase) && state == old(state)
      ensures name == old(phase).name ==>
                fired == [CallEnd(name, old(state))] && name in old(state) && phase == Scanning && state == map[]
    {
      if name != phase.name {
        return [];
      }
      fired := [CallEnd(name, state)];
      phase := Scanning;
      state := map[];
    }

    /**
     * Expat calls the handler installed for `event`: the root handler, the
     * start handler, and the data and end handlers only while tracking.
     * `rejected` is the IOError of a root element that is not the required one.
     */
    method Dispatch(event: Event, callStart: (string, Attributes) -> bool)
      returns (rejected: bool, more: seq<Callback>)
      requires Valid() && used && !event.MalformedMarkup?
      modifies this`phase, this`element, this`state
      ensures Valid()
      ensures var r := Step(rootname, watchlist, Config(old(phase), old(element), old(state)), event, callStart);
              rejected == r.rejected && more == r.calls && Config(phase, element, state) == r.next
    {
      rejected, more := false, [];
      match event {
        case Start(name, attrs) =>
          if phase.AwaitingRoot? {
            var ok := ElementRoot(name);
            rejected := !ok;
          } else {
            more := ElementStart(name, attrs, callStart);
          }
        case Data(text) =>
          if phase.Tracking? {
            ElementData(text);
          }
        case End(name) =>
          if phase.Tracking? {
            more := ElementEnd(name);
          }
      }
    }

    /**
     * `parse(filename, call_start, call_end)`: feed the events to the
     * handlers, exactly as `Run` does.  An ExpatError, a rejected root
     * element, or a second parse with the same parser ends in IOError;
     * callbacks already made stay made.  So (`RunOutcome`, `RunWellPaired`)
     * the parse completes iff the parser is fresh, no markup is malformed
     * and the root is accepted; nothing is called before the root;
     * `call_start` sees only watched names; every `call_end` comes right
     * after the `call_start` that accepted the same element.
     */
    method Parse(events: seq<Event>, callStart: (string, Attributes) -> bool)
      returns (outcome: Outcome, fired: seq<Callback>)
      requires Valid()
      modifies this`phase, this`element, this`state, this`used
      ensures Valid() && used
      ensures old(used) ==> outcome == IOError && fired == []
                            && phase == old(phase) && element == old(element) && state == old(state)
      ensures !old(used) ==>
                Trace(outcome, fired, Config(phase, element, state))
                == Run(rootname, watchlist, Config(old(phase), old(element), old(state)), events, callStart)
      ensures outcome == Completed <==>
                !old(used) && MalformedMarkup !in events && RootAccepted(rootname, events)
      ensures old(used) || !RootAccepted(rootname, events) ==> fired == []
      ensures WellPaired(fired, watchlist, callStart)
    {
      fired := [];
      if used {
        return IOError, [];
      }
      used := true;
      ghost var start := Config(phase, element, state);
      ghost var whole := Run(rootname, watchlist, start, events, callStart);
      RunOutcome(rootname, watchlist, start, events, callStart);
      RunWellPaired(rootname, watchlist, start, [], events, callStart);
      var i := 0;
      while i < |events|
        invariant 0 <= i <= |events|
        invariant Valid() && used
        invariant var rest := Run(rootname, watchlist, Config(phase, element, state), events[i..], callStart);
                  whole == Trace(rest.outcome, fired + rest.calls, rest.last)
      {
        var event := events[i];
        RunUnfold(rootname, watchlist, Config(phase, element, state), events[i..], callStart);
        assert events[i..][0] == event && events[i..][1..] == events[i + 1..];
        if event.MalformedMarkup? {
          assert fired + [] == fired;
          return IOError, fired;
        }
        var rejected, more := Dispatch(event, callStart);
        if rejected {
          assert fired + [] == fired;
          return IOError, fired;
        }
        ghost var rest := Run(rootname, watchlist, Config(phase, element, state), events[i + 1..], callStart);
        AppendAssociates(fired, more, rest.calls);
        fired := fired + more;
        i := i + 1;
      }
      assert events[i..] == [];
      outcome := Completed;
    }
  }

  /**
   * What the callbacks made so far, `log`, say about the configuration `c`:
   * nothing is called before the root; `call_start` sees only watched names;
   * each `call_end` follows the `call_start` that accepted the same element;
   * while tracking, the last call is the `call_start` that accepted the
   * tracked element.
   */
  predicate Agrees(c: Config, log: seq<Callback>, watchlist: set<string>, callStart: (string, Attributes) -> bool)
  {
    && (c.phase.AwaitingRoot? ==> log == [])
    && WellPaired(log, watchlist, callStart)
    && (c.phase.Tracking? ==> log != [] && Accepted(log[|log| - 1], c.phase.name, callStart))
  }

  /** Handling one event keeps the calls made so far in agreement with the configuration. */
  lemma StepKeepsPairing(rootname: Option<string>, watchlist: set<string>, c: Config, log: seq<Callback>,
                         event: Event, callStart: (string, Attributes) -> bool)
    requires Consistent(c) && !event.MalformedMarkup? && Agrees(c, log, watchlist, callStart)
    ensures var r := Step(rootname, watchlist, c, event, callStart);
            !r.rejected ==> Agrees(r.next, log + r.calls, watchlist, callStart)
  {
    var r := Step(rootname, watchlist, c, event, callStart);
    if r.calls == [] {
      assert log + r.calls == log;
    } else if event.Start? {
      WellPairedAppendStart(log, event.name, event.attrs, watchlist, callStart);
    } else {
      WellPairedAppendEnd(log, c.phase.name, c.state, watchlist, callStart);
    }
  }

  /** Every run from a configuration the calls so far agree with leaves the calls well paired. */
  lemma {:induction false} RunWellPaired(rootname: Option<string>, watchlist: set<string>, c: Config,
                                         log: seq<Callback>, events: seq<Event>,
                                         callStart: (string, Attributes) -> bool)
    requires Consistent(c) && Agrees(c, log, watchlist, callStart)
    ensures WellPaired(log + Run(rootname, watchlist, c, events, callStart).calls, watchlist, callStart)
    decreases |events|
  {
    var t := Run(rootname, watchlist, c, events, callStart);
    if events == [] || events[0].MalformedMarkup? {
      assert log + t.calls == log;
    } else {
      var r := Step(rootname, watchlist, c, events[0], callStart);
      if r.rejected {
        assert log + t.calls == log;
      } else {
        StepKeepsPairing(rootname, watchlist, c, log, events[0], callStart);
        RunWellPaired(rootname, watchlist, r.next, log + r.calls, events[1..], callStart);
        var rest := Run(rootname, watchlist, r.next, events[1..], callStart);
        assert t.calls == r.calls + rest.calls;
        AppendAssociates(log, r.calls, rest.calls);
      }
    }
  }

  /**
   * A run completes iff no markup is malformed and, when it starts before
   * the root, the root is accepted; a run from before the root of a
   * document whose root is rejected makes no call.
   */
  lemma {:induction false} RunOutcome(rootname: Option<string>, watchlist: set<string>, c: Config,
                                      events: seq<Event>, callStart: (string, Attributes) -> bool)
    requires Consistent(c)
    ensures Run(rootname, watchlist, c, events, callStart).outcome == Completed <==>
              MalformedMarkup !in events && (c.phase.AwaitingRoot? ==> RootAccepted(rootname, events))
    ensures c.phase.AwaitingRoot? && !RootAccepted(rootname, events) ==>
              Run(rootname, watchlist, c, events, callStart).calls == []
    decreases |events|
  {
    if events != [] {
      RunUnfold(rootname, watchlist, c, events, callStart);
    }
    if events != [] && !events[0].MalformedMarkup? {
      var r := Step(rootname, watchlist, c, events[0], callStart);
      RunOutcome(rootname, watchlist, r.next, events[1..], callStart);
      assert events == [events[0]] + events[1..];
      if !events[0].Start? {
        assert FirstStart(events) == FirstStart(events[1..]);
      }
    }
  }

  lemma AppendAssociates(a: seq<Callback>, b: seq<Callback>, c: seq<Callback>)
    ensures a + (b + c) == (a + b) + c
  {
  }

  /** One `Step` of `Run`, written out. */
  lemma RunUnfold(rootname: Option<string>, watchlist: set<string>, c: Config, events: seq<Event>,
                  callStart: (string, Attributes) -> bool)
    requires Consistent(c) && events != []
    ensures events[0].MalformedMarkup? ==> Run(rootname, watchlist, c, events, callStart) == Trace(IOError, [], c)
    ensures !events[0].MalformedMarkup? ==>
              var r := Step(rootname, watchlist, c, events[0], callStart);
              var rest := Run(rootname, watchlist, r.next, events[1..], callStart);
              Run(rootname, watchlist, c, events, callStart)
              == if r.rejected then Trace(IOError, [], c) else Trace(rest.outcome, r.calls + rest.calls, rest.last)
  {
  }

  /** `c` is a `call_start` for `name` that returned true. */
  predicate Accepted(c: Callback, name: string, callStart: (string, Attributes) -> bool)
  {
    c.CallStart? && c.name == name && callStart(c.name, c.attrs)
  }

  /**
   * The calls a parse makes: `call_start` only for watched names, and every
   * `call_end` right after the `call_start` that accepted the same element,
   * with a state that holds the element's entry.
   */
  predicate WellPaired(log: seq<Callback>, watchlist: set<string>, callStart: (string, Attributes) -> bool)
  {
    && (forall k :: 0 <= k < |log| && log[k].CallStart? ==> log[k].name in watchlist)
    && (forall k :: 0 <= k < |log| && log[k].CallEnd? ==>
          && log[k].name in log[k].state
          && k > 0 && Accepted(log[k - 1], log[k].name, callStart))
  }

  lemma WellPairedAppendStart(log: seq<Callback>, name: string, attrs: Attributes,
                              watchlist: set<string>, callStart: (string, Attributes) -> bool)
    requires WellPaired(log, watchlist, callStart) && name in watchlist
    ensures WellPaired(log + [CallStart(name, attrs)], watchlist, callStart)
  {
    var log' := log + [CallStart(name, attrs)];
    assert forall k :: 0 <= k < |log| ==> log'[k] == log[k];
  }

  lemma WellPairedAppendEnd(log: seq<Callback>, name: string, state: Attributes,
                            watchlist: set<string>, callStart: (string, Attributes) -> bool)
    requires WellPaired(log, watchlist, callStart) && name in state
    requires log != [] && Accepted(log[|log| - 1], name, callStart)
    ensures WellPaired(log + [CallEnd(name, state)], watchlist, callStart)
  {
    var log' := log + [CallEnd(name, state)];
    assert forall k :: 0 <= k < |log| ==> log'[k] == log[k];
  }

  /**
   * A GPX document whose root is `gpx`, read by a parser that requires a
   * `kml` root: the parse fails with IOError before any callback, even
   * though the document holds a watched `trkpt` element.
   */
  method RootMismatchFailsBeforeCallbacks() returns (outcome: Outcome, fired: seq<Callback>)
    ensures outcome == IOError && fired == []
  {
    var parser := new XmlSimpleParser(Some("kml"), {"trkpt"});
    var events := [
      Start("gpx", map[]), Start("trk", map[]),
      Start("trkpt", map["lat" := "1", "lon" := "2"]), Data("2021-01-01T00:00:00"),
      End("trkpt"), End("trk"), End("gpx")
    ];
    assert FirstStart(events) == Some("gpx");
    outcome, fired := parser.Parse(events, (name, attrs) => true);
  }

  /** A `call_start` that accepts every element it is offered. */
  function AcceptEvery(name: string, attrs: Attributes): bool
  {
    true
  }

  const TrackAttributes: Attributes := map["lat" := "1", "lon" := "2"]

  /** What `call_end` gets for a track point with text `time`: its attributes and, under its own name, its text. */
  function TrackGathered(time: string): Attributes
  {
    map["trkpt" := time, "lat" := "1", "lon" := "2"]
  }

  /** The events Expat reports for a GPX file holding one track point whose text is `time`. */
  function TrackPointDocument(time: string): seq<Event>
  {
    [Start("gpx", map[]), Start("trk", map[])] + TrackPointElement(time) + [End("trk"), End("gpx")]
  }

  /** The `trkpt` element itself: start tag, text, end tag. */
  function TrackPointElement(time: string): seq<Event>
  {
    [Start("trkpt", TrackAttributes), Data(time), End("trkpt")]
  }

  /** `Run` on an event followed by more events: one `Step`, then the rest. */
  lemma RunCons(rootname: Option<string>, watchlist: set<string>, c: Config, e: Event, rest: seq<Event>,
                callStart: (string, Attributes) -> bool)
    requires Consistent(c) && !e.MalformedMarkup?
    ensures var r := Step(rootname, watchlist, c, e, callStart);
            var t := Run(rootname, watchlist, r.next, rest, callStart);
            !r.rejected ==> Run(rootname, watchlist, c, [e] + rest, callStart) == Trace(t.outcome, r.calls + t.calls, t.last)
  {
    assert ([e] + rest)[0] == e && ([e] + rest)[1..] == rest;
  }

  /** After the track point closes, the end tags of `trk` and `gpx` change nothing. */
  lemma TrackPointClosing(rest: seq<Event>)
    requires rest == [End("trk"), End("gpx")]
    ensures var after := Config(Scanning, Some("trkpt"), map[]);
            Run(Some("gpx"), {"trkpt"}, after, rest, AcceptEvery) == Trace(Completed, [], after)
  {
    var after := Config(Scanning, Some("trkpt"), map[]);
    assert [End("gpx")] + [] == [End("gpx")];
    RunCons(Some("gpx"), {"trkpt"}, after, End("gpx"), [], AcceptEvery);
    RunCons(Some("gpx"), {"trkpt"}, after, End("trk"), [End("gpx")], AcceptEvery);
  }

  /** The end tag of the track point hands the gathered state to `call_end` and tracking stops. */
  lemma TrackPointEnd(time: string, rest: seq<Event>)
    requires rest == [End("trk"), End("gpx")]
    ensures var filled := Config(Tracking("trkpt"), Some("trkpt"), TrackGathered(time));
            Run(Some("gpx"), {"trkpt"}, filled, [End("trkpt")] + rest, AcceptEvery)
            == Trace(Completed, [CallEnd("trkpt", TrackGathered(time))], Config(Scanning, Some("trkpt"), map[]))
  {
    TrackPointClosing(rest);
    RunCons(Some("gpx"), {"trkpt"}, Config(Tracking("trkpt"), Some("trkpt"), TrackGathered(time)), End("trkpt"),
            rest, AcceptEvery);
  }

  /** While the track point is tracked, its text joins its entry. */
  lemma TrackPointText(time: string, rest: seq<Event>)
    requires time != [] && '0' <= time[0] <= '9' && rest == [End("trk"), End("gpx")]
    ensures var tracking := Config(Tracking("trkpt"), Some("trkpt"), map["trkpt" := ""] + TrackAttributes);
            Run(Some("gpx"), {"trkpt"}, tracking, [Data(time)] + ([End("trkpt")] + rest), AcceptEvery)
            == Trace(Completed, [CallEnd("trkpt", TrackGathered(time))], Config(Scanning, Some("trkpt"), map[]))
  {
    var tracking := Config(Tracking("trkpt"), Some("trkpt"), map["trkpt" := ""] + TrackAttributes);
    TrackPointEnd(time, rest);
    DigitIsNotSpace(time[0]);
    TrackPointState(TrackAttributes, time);
    RunCons(Some("gpx"), {"trkpt"}, tracking, Data(time), [End("trkpt")] + rest, AcceptEvery);
  }

  /** Scanning meets the track point: `call_start` is offered it, accepts, and tracking begins. */
  lemma TrackPointBody(time: string, rest: seq<Event>)
    requires time != [] && '0' <= time[0] <= '9' && rest == [End("trk"), End("gpx")]
    ensures Run(Some("gpx"), {"trkpt"}, Config(Scanning, None, map[]), TrackPointElement(time) + rest, AcceptEvery)
            == Trace(Completed, [CallStart("trkpt", TrackAttributes), CallEnd("trkpt", TrackGathered(time))],
                     Config(Scanning, Some("trkpt"), map[]))
  {
    TrackPointText(time, rest);
    RunCons(Some("gpx"), {"trkpt"}, Config(Scanning, None, map[]), Start("trkpt", TrackAttributes),
            [Data(time)] + ([End("trkpt")] + rest), AcceptEvery);
    assert TrackPointElement(time) + rest
        == [Start("trkpt", TrackAttributes)] + ([Data(time)] + ([End("trkpt")] + rest));
  }

  /**
   * Read with the required root `gpx`, `trkpt` watched and a `call_start`
   * that accepts: the track point is offered once, and `call_end` gets its
   * attributes together with its text under its own name.
   */
  lemma TrackPointRun(time: string)
    requires time != [] && '0' <= time[0] <= '9'
    ensures Run(Some("gpx"), {"trkpt"}, Config(AwaitingRoot, None, map[]), TrackPointDocument(time), AcceptEvery)
         == Trace(Completed, [CallStart("trkpt", TrackAttributes), CallEnd("trkpt", TrackGathered(time))],
                  Config(Scanning, Some("trkpt"), map[]))
  {
    var rn, wl, cs := Some("gpx"), {"trkpt"}, AcceptEvery;
    var rest := [End("trk"), End("gpx")];
    var inner := TrackPointElement(time) + rest;
    TrackPointBody(time, rest);
    RunCons(rn, wl, Config(Scanning, None, map[]), Start("trk", map[]), inner, cs);
    RunCons(rn, wl, Config(AwaitingRoot, None, map[]), Start("gpx", map[]), [Start("trk", map[])] + inner, cs);
    assert TrackPointDocument(time) == [Start("gpx", map[])] + ([Start("trk", map[])] + inner);
  }

  lemma DigitIsNotSpace(c: char)
    requires '0' <= c <= '9'
    ensures !IsUnicodeSpace(c)
  {
  }

  /** The entry and attributes recorded at the start tag, then the text appended to the entry. */
  lemma TrackPointState(attrs: Attributes, text: string)
    requires attrs == map["lat" := "1", "lon" := "2"]
    ensures var started := map["trkpt" := ""] + attrs;
            started["trkpt" := started["trkpt"] + text] == map["trkpt" := text, "lat" := "1", "lon" := "2"]
  {
    var started := map["trkpt" := ""] + attrs;
    assert started == map["trkpt" := "", "lat" := "1", "lon" := "2"];
    assert "" + text == text;
  }

  /** The track point parse itself: `Parse` completes and makes exactly the calls of `TrackPointRun`. */
  method TrackPointCallbacks() returns (outcome: Outcome, fired: seq<Callback>)
    ensures outcome == Completed
    ensures |fired| == 2 && fired[0] == CallStart("trkpt", map["lat" := "1", "lon" := "2"])
    ensures fired[1].CallEnd? && fired[1].name == "trkpt"
    ensures fired[1].state == map["trkpt" := "2021-01-01T00:00:00", "lat" := "1", "lon" := "2"]
  {
    var parser := new XmlSimpleParser(Some("gpx"), {"trkpt"});
    var time := "2021-01-01T00:00:00";
    TrackPointRun(time);
    outcome, fired := parser.Parse(TrackPointDocument(time), AcceptEvery);
  }
}
