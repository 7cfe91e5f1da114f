/** The INI scanner of ini.go: a single pass over the input lines that turns
    them into comment, section and key/value events, holding back one pending
    key so that continuation lines and repeated keys collect into one event. */
module Ini {
  import opened Text

  datatype Option<T> = None | Some(value: T)

  /** Where an input element sits: its 1-based line number and the name of the
      most recent section header ("" before the first one). */
  datatype Location = Location(line: nat, section: string)

  const MsgUnclosedHeader := "unclosed section header"
  const MsgInvalidSection := "invalid section name"
  const MsgEmptyKey := "empty key"

  /** A syntax problem: where it occurred, one of the three descriptions above,
      and the key or section name concerned (or ""). */
  datatype SyntaxError = SyntaxError(loc: Location, desc: string, key: string)

  /** The text of a syntax error (ini.go's `Error`): "line ", the decimal
      line number, ": " and the description, then ": " and the key exactly
      when there is a key. */
  function ErrorMessage(e: SyntaxError): (msg: string)
    ensures var d := Decimal(e.loc.line);
      && var n := 5 + |d| + 2 + |e.desc|;
      && |msg| >= n
      && msg[..5] == "line " && msg[5..5 + |d|] == d && DecimalValue(d) == e.loc.line
      && msg[5 + |d|..n] == ": " + e.desc
      && msg[n..] == (if e.key == "" then "" else ": " + e.key)
  {
    DecimalRoundTrip(e.loc.line);
    var d := Decimal(e.loc.line);
    var tail := if e.key != "" then ": " + e.key else "";
    MessageLayout(d, e.desc, tail);
    "line " + d + ": " + e.desc + tail
  }

  /** Where the parts of an error message sit. */
  lemma MessageLayout(d: string, desc: string, tail: string)
    ensures var msg := "line " + d + ": " + desc + tail;
      var n := 5 + |d| + 2 + |desc|;
      && |msg| == n + |tail|
      && msg[..5] == "line " && msg[5..5 + |d|] == d
      && msg[5 + |d|..n] == ": " + desc && msg[n..] == tail
  {
    var msg := "line " + d + ": " + desc + tail;
    assert msg == "line " + (d + (": " + desc + tail));
    assert msg[5..] == d + (": " + desc + tail);
    assert msg[5 + |d|..] == ": " + desc + tail;
  }

  /** The three things the scanner reports. */
  datatype Event =
    | Comment(loc: Location, text: string)
    | Section(loc: Location, name: string)
    | KeyValue(loc: Location, key: string, values: seq<string>)

  /** An error raised by one of the caller's callbacks; the scanner never looks
      inside it. */
  datatype HandlerError = HandlerError(message: string)

  /** The caller's callbacks, each of which may be absent (nil).  A callback
      answers None to accept an event and Some(error) to stop the scan. */
  datatype Handler = Handler(
    onComment: Option<(Location, string) -> Option<HandlerError>>,
    onSection: Option<(Location, string) -> Option<HandlerError>>,
    onKeyValue: Option<(Location, string, seq<string>) -> Option<HandlerError>>)
  {
    function CallComment(loc: Location, text: string): Option<HandlerError> {
      if onComment.Some? then onComment.value(loc, text) else None
    }

    function CallSection(loc: Location, name: string): Option<HandlerError> {
      if onSection.Some? then onSection.value(loc, name) else None
    }

    function CallKeyValue(loc: Location, key: string, values: seq<string>): Option<HandlerError> {
      if onKeyValue.Some? then onKeyValue.value(loc, key, values) else None
    }

    /** Hands one event to the callback for its kind and answers what that
        callback answers; an absent callback accepts the event. */
    function Dispatch(ev: Event): (r: Option<HandlerError>)
      ensures ev.Comment? && onComment.None? ==> r.None?
      ensures ev.Section? && onSection.None? ==> r.None?
      ensures ev.KeyValue? && onKeyValue.None? ==> r.None?
      ensures ev.Comment? && onComment.Some? ==> r == onComment.value(ev.loc, ev.text)
      ensures ev.Section? && onSection.Some? ==> r == onSection.value(ev.loc, ev.name)
      ensures ev.KeyValue? && onKeyValue.Some? ==> r == onKeyValue.value(ev.loc, ev.key, ev.values)
    {
      match ev
      case Comment(loc, text) => CallComment(loc, text)
      case Section(loc, name) => CallSection(loc, name)
      case KeyValue(loc, key, values) => CallKeyValue(loc, key, values)
    }
  }

  /** The handler with every callback absent. */
  const NilHandler := Handler(None, None, None)

  /** What the scanner carries from one line to the next: the current
      location, and the pending key with its origin and its values so far
      (`curKey == ""` when nothing is pending). */
  datatype ScanState = ScanState(loc: Location, keyLoc: Location, curKey: string, values: seq<string>)

  const Initial := ScanState(Location(0, ""), Location(0, ""), "", [])

  /** The event that flushing a pending group delivers: none when no key is
      pending. */
  function Flush(keyLoc: Location, curKey: string, values: seq<string>): seq<Event> {
    if curKey == "" then [] else [KeyValue(keyLoc, curKey, values)]
  }

  function Pending(st: ScanState): seq<Event> {
    Flush(st.keyLoc, st.curKey, st.values)
  }

  /** The state after a flush: no key pending. */
  function Cleared(st: ScanState): ScanState {
    st.(curKey := "", values := [])
  }

  /** Whether the raw line starts with a space or a tab.  Both are
      whitespace, so an indented line's first character is never part of
      its trimmed text. */
  predicate IsIndented(text: string)
    ensures IsIndented(text) ==> text != "" && IsSpace(text[0])
  {
    text != "" && (text[0] == ' ' || text[0] == '\t')
  }

  datatype StepResult = Next(out: seq<Event>, st: ScanState) | Stop(err: SyntaxError)

  /** One input line: the events it releases and the next state, or the
      syntax error that ends the scan.  Every line advances the line number
      by one, and a syntax error is reported at the line's own location. */
  function Step(st: ScanState, text: string): (r: StepResult)
    ensures r.Next? ==> r.st.loc.line == st.loc.line + 1
    ensures r.Stop? ==> r.err.loc == st.loc.(line := st.loc.line + 1)
  {
    var loc := st.loc.(line := st.loc.line + 1);
    var clean := TrimSpace(text);
    if clean == "" then
      Next([], st.(loc := loc))
    else if clean[0] == ';' then
      Next(Pending(st) + [Comment(loc, text)], Cleared(st).(loc := loc))
    else if clean[0] == '[' then
      HeaderLine(st, loc, clean)
    else
      var i := IndexOf(clean, '=');
      if i < 0 then NoEqualsLine(st, loc, clean, IsIndented(text))
      else PairLine(st, loc, clean, i)
  }

  /** A trimmed line that starts with '[': a section header, or one of the
      two header errors. */
  function HeaderLine(st: ScanState, loc: Location, clean: string): (r: StepResult)
    requires clean != [] && clean[0] == '['
    ensures r.Next? ==> r.st.loc.line == loc.line
    ensures r.Stop? ==> r.err.loc == loc
  {
    if clean[|clean| - 1] != ']' then
      Stop(SyntaxError(loc, MsgUnclosedHeader, clean[1..]))
    else
      var name := CleanKey(clean[1..|clean| - 1]);
      if name == "" || ContainsAny(name, "[]") then
        Stop(SyntaxError(loc, MsgInvalidSection, name))
      else
        Next(Pending(st) + [Section(loc, name)], Cleared(st).(loc := loc.(section := name)))
  }

  /** A trimmed line without '=': a continuation value of the pending key
      when the raw line is indented and a key is pending, a bare key
      otherwise. */
  function NoEqualsLine(st: ScanState, loc: Location, clean: string, indented: bool): (r: StepResult)
    ensures r.Next? && r.st.loc == loc
  {
    if indented && st.curKey != "" then
      var values := if |st.values| == 1 && st.values[0] == "" then [clean] else st.values + [clean];
      Next([], st.(loc := loc, values := values))
    else
      Next(Pending(st) + [KeyValue(loc, CleanKey(clean), [""])], Cleared(st).(loc := loc))
  }

  /** A trimmed line with its first '=' at `i`: a value for the key on its
      left, which becomes the pending key unless it already is. */
  function PairLine(st: ScanState, loc: Location, clean: string, i: nat): (r: StepResult)
    requires i < |clean|
    ensures r.Next? ==> r.st.loc == loc
    ensures r.Stop? ==> r.err.loc == loc
  {
    var key := CleanKey(clean[..i]);
    if key == "" then
      Stop(SyntaxError(loc, MsgEmptyKey, ""))
    else
      var value := TrimSpace(clean[i + 1..]);
      if key != st.curKey then
        Next(Pending(st), ScanState(loc, loc, key, [value]))
      else
        Next([], st.(loc := loc, values := st.values + [value]))
  }

  /** The scan in progress: the events released so far and the state, or the
      events released before a syntax error and that error. */
  datatype Progress = Running(events: seq<Event>, st: ScanState) | Failed(events: seq<Event>, err: SyntaxError)

  function Advance(p: Progress, text: string): Progress {
    match p
    case Failed(_, _) => p
    case Running(evs, st) =>
      match Step(st, text)
      case Stop(e) => Failed(evs, e)
      case Next(out, st') => Running(evs + out, st')
  }

  /** The scan after the given lines, from the initial state: a running
      scan has counted every line, and a syntax error names one of them. */
  function Scan(lines: seq<string>): (p: Progress)
    ensures p.Running? ==> p.st.loc.line == |lines|
    ensures p.Failed? ==> 1 <= p.err.loc.line <= |lines|
  {
    if lines == [] then Running([], Initial)
    else Advance(Scan(lines[..|lines| - 1]), lines[|lines| - 1])
  }

  /** The whole event stream of an input, with the final flush. */
  datatype Scanned = Ok(events: seq<Event>) | Fail(events: seq<Event>, err: SyntaxError)

  /** The final flush adds at most the one pending group to the events
      released so far; a failed scan adds nothing. */
  function ScanAll(lines: seq<string>): (r: Scanned)
    ensures r.Fail? <==> Scan(lines).Failed?
    ensures Scan(lines).events <= r.events && |r.events| <= |Scan(lines).events| + 1
    ensures r.Fail? ==> r.events == Scan(lines).events && 1 <= r.err.loc.line <= |lines|
  {
    match Scan(lines)
    case Failed(evs, e) => Fail(evs, e)
    case Running(evs, st) => Ok(evs + Pending(st))
  }

  /** Handing a sequence of events to a handler in order: all accepted, or
      the position of the first refusal and its error. */
  datatype Delivery = Accepted | Refused(at: nat, cause: HandlerError)

  function Deliver(h: Handler, evs: seq<Event>): (d: Delivery)
    ensures d.Accepted? <==> forall k :: 0 <= k < |evs| ==> h.Dispatch(evs[k]).None?
    ensures d.Refused? ==> d.at < |evs| && h.Dispatch(evs[d.at]) == Some(d.cause)
    ensures d.Refused? ==> forall k :: 0 <= k < d.at ==> h.Dispatch(evs[k]).None?
  {
    if evs == [] then Accepted
    else match h.Dispatch(evs[0])
      case Some(e) => Refused(0, e)
      case None =>
        var d := Deliver(h, evs[1..]);
        assert forall k :: 1 <= k < |evs| ==> evs[k] == evs[1..][k - 1];
        match d
        case Accepted => Accepted
        case Refused(k, e) => Refused(k + 1, e)
  }

  /** How a scan ends for the caller of Parse. */
  datatype Status = Success | SyntaxFailure(syntax: SyntaxError) | HandlerFailure(cause: HandlerError)

  /** The events the handler received and the outcome of the scan. */
  datatype Parsed = Parsed(delivered: seq<Event>, status: Status)

  /** What a handler observes of an event stream: every event up to and
      including the first one it refuses.  A refusal ends the scan with the
      handler's own error; otherwise the scan's own outcome stands. */
  function Observe(h: Handler, r: Scanned): (p: Parsed)
    ensures p.delivered <= r.events
    ensures !p.status.HandlerFailure? ==>
      && p.delivered == r.events
      && (forall k :: 0 <= k < |r.events| ==> h.Dispatch(r.events[k]).None?)
      && p.status == (if r.Ok? then Success else SyntaxFailure(r.err))
    ensures p.status.HandlerFailure? ==>
      && p.delivered != []
      && h.Dispatch(p.delivered[|p.delivered| - 1]) == Some(p.status.cause)
      && forall k :: 0 <= k < |p.delivered| - 1 ==> h.Dispatch(p.delivered[k]).None?
  {
    match Deliver(h, r.events)
    case Refused(k, e) => Parsed(r.events[..k + 1], HandlerFailure(e))
    case Accepted => Parsed(r.events, if r.Ok? then Success else SyntaxFailure(r.err))
  }

  /** Scanning one more line is one more Advance. */
  lemma ScanSnoc(lines: seq<string>, i: nat)
    requires i < |lines|
    ensures Scan(lines[..i + 1]) == Advance(Scan(lines[..i]), lines[i])
  {
    assert lines[..i + 1][..i] == lines[..i];
  }

  /** A longer input only extends the events of a shorter one, and a scan that
      has failed stays failed. */
  lemma {:induction false} ScanExtends(lines: seq<string>, i: nat)
    requires i <= |lines|
    ensures Scan(lines[..i]).events <= Scan(lines).events
    ensures Scan(lines[..i]).Failed? ==> Scan(lines) == Scan(lines[..i])
    decreases |lines|
  {
    if i < |lines| {
      var init := lines[..|lines| - 1];
      assert init[..i] == lines[..i];
      ScanExtends(init, i);
    } else {
      assert lines[..i] == lines;
    }
  }

  /** The stream of a whole input starts with the events released after any
      prefix of its lines. */
  lemma ScanAllExtends(lines: seq<string>, i: nat)
    requires i <= |lines|
    ensures Scan(lines[..i]).events <= ScanAll(lines).events
    ensures Scan(lines[..i]).Failed? ==> ScanAll(lines) == Fail(Scan(lines[..i]).events, Scan(lines[..i]).err)
  {
    ScanExtends(lines, i);
  }

  /** The first refusal in a stream decides what the handler observes. */
  lemma ObserveRefused(h: Handler, r: Scanned, k: nat, e: HandlerError)
    requires k < |r.events|
    requires forall j :: 0 <= j < k ==> h.Dispatch(r.events[j]).None?
    requires h.Dispatch(r.events[k]) == Some(e)
    ensures Observe(h, r) == Parsed(r.events[..k + 1], HandlerFailure(e))
  {
    var d := Deliver(h, r.events);
    assert d.Refused?;
    assert d.at == k;
  }

  /** Two accepted runs of events make an accepted run. */
  lemma AcceptedConcat(h: Handler, a: seq<Event>, b: seq<Event>)
    requires Deliver(h, a) == Accepted && Deliver(h, b) == Accepted
    ensures Deliver(h, a + b) == Accepted
  {
    assert forall k :: |a| <= k < |a + b| ==> (a + b)[k] == b[k - |a|];
  }

  /** How a scan that stops on line `i` ends for the handler: with the syntax
      error, after everything delivered before that line, or with the
      handler's refusal of one of the line's events. */
  lemma LineStops(h: Handler, lines: seq<string>, i: nat, delivered: seq<Event>, sent: seq<Event>, s: Status)
    requires i < |lines| && Scan(lines[..i]).Running? && Scan(lines[..i]).events == delivered
    requires Deliver(h, delivered) == Accepted
    requires Handled(h, Step(Scan(lines[..i]).st, lines[i]), Initial, sent, Some(s))
    ensures Observe(h, ScanAll(lines)) == Parsed(delivered + sent, s)
  {
    ScanSnoc(lines, i);
    StepStops(h, lines, i, delivered, Step(Scan(lines[..i]).st, lines[i]), sent, s);
  }

  /** `LineStops` for whatever step result line `i` had. */
  lemma StepStops(h: Handler, lines: seq<string>, i: nat, delivered: seq<Event>, r: StepResult, sent: seq<Event>, s: Status)
    requires i < |lines|
    requires Scan(lines[..i + 1]) == if r.Stop? then Failed(delivered, r.err) else Running(delivered + r.out, r.st)
    requires Deliver(h, delivered) == Accepted
    requires Handled(h, r, Initial, sent, Some(s))
    ensures Observe(h, ScanAll(lines)) == Parsed(delivered + sent, s)
  {
    ScanAllExtends(lines, i + 1);
    match s
    case SyntaxFailure(e) =>
      assert delivered + sent == delivered;
    case HandlerFailure(e) =>
      RefusedAfter(h, ScanAll(lines), delivered, r.out, sent, e);
  }

  /** A handler that accepts `delivered` and refuses the last of `sent`, a
      prefix of the events that follow, observes exactly those. */
  lemma RefusedAfter(h: Handler, sc: Scanned, delivered: seq<Event>, out: seq<Event>, sent: seq<Event>, e: HandlerError)
    requires delivered + out <= sc.events
    requires Deliver(h, delivered) == Accepted
    requires sent != [] && sent <= out && Deliver(h, out) == Refused(|sent| - 1, e)
    ensures Observe(h, sc) == Parsed(delivered + sent, HandlerFailure(e))
  {
    var all := sc.events;
    var k := |delivered| + |sent| - 1;
    forall j | 0 <= j < k
      ensures h.Dispatch(all[j]).None?
    {
      if j < |delivered| {
        assert all[j] == delivered[j];
      } else {
        assert all[j] == out[j - |delivered|];
      }
    }
    assert all[k] == out[|sent| - 1];
    ObserveRefused(h, sc, k, e);
    assert all[..k + 1] == delivered + sent;
  }

  /** ini.go's `emit` closure: the pending group, if any, handed to the
      key/value callback. */
  method Emit(h: Handler, keyLoc: Location, curKey: string, values: seq<string>)
    returns (sent: seq<Event>, refusal: Option<HandlerError>)
    ensures sent == Flush(keyLoc, curKey, values)
    ensures sent == [] ==> refusal.None?
    ensures sent != [] ==> refusal == h.Dispatch(sent[0])
  {
    if curKey == "" {
      return [], None;
    }
    sent := [KeyValue(keyLoc, curKey, values)];
    refusal := h.CallKeyValue(keyLoc, curKey, values);
  }

  /** How the imperative scanner's handling of one line agrees with a step
      of the pure scanner: without a stop, the line released `sent`, the
      handler accepted all of it and `st'` is the next state; a syntax error
      is reported before any of the line's events; a handler refusal comes
      after the line's events up to and including the refused one. */
  ghost predicate Handled(h: Handler, r: StepResult, st': ScanState, sent: seq<Event>, stop: Option<Status>) {
    match stop
    case None => r == Next(sent, st') && Deliver(h, sent) == Accepted
    case Some(Success) => false
    case Some(SyntaxFailure(e)) => r == Stop(e) && sent == []
    case Some(HandlerFailure(e)) =>
      && r.Next? && sent != [] && sent <= r.out
      && Deliver(h, r.out) == Refused(|sent| - 1, e)
  }

  /** The body of ini.go's scanning loop for one line, with the scanner's
      variables passed in and handed back. */
  method ScanLine(h: Handler, loc0: Location, keyLoc0: Location, curKey0: string, values0: seq<string>, text: string)
    returns (loc: Location, keyLoc: Location, curKey: string, values: seq<string>,
             sent: seq<Event>, stop: Option<Status>)
    ensures Handled(h, Step(ScanState(loc0, keyLoc0, curKey0, values0), text),
                    ScanState(loc, keyLoc, curKey, values), sent, stop)
  {
    var st := ScanState(loc0, keyLoc0, curKey0, values0);
    loc, keyLoc, curKey, values := loc0.(line := loc0.line + 1), keyLoc0, curKey0, values0;
    sent, stop := [], None;
    var clean := TrimSpace(text);
    if clean == "" {
      return;  // blank lines are skipped
    }
    var isIndented := text != "" && (text[0] == ' ' || text[0] == '\t');

    if clean[0] == ';' {
      var refusal;
      sent, refusal := Emit(h, keyLoc, curKey, values);
      if refusal.Some? {
        return loc, keyLoc, curKey, values, sent, Some(HandlerFailure(refusal.value));
      }
      curKey, values := "", [];
      var err := h.CallComment(loc, text);
      sent := sent + [Comment(loc, text)];
      if err.Some? {
        return loc, keyLoc, curKey, values, sent, Some(HandlerFailure(err.value));
      }
      return;
    }

    if clean[0] == '[' {
      assert Step(st, text) == HeaderLine(st, loc, clean);
      loc, keyLoc, curKey, values, sent, stop := ScanHeader(h, st, loc, clean);
      return;
    }

    var eq := IndexOf(clean, '=');
    if eq < 0 {
      assert Step(st, text) == NoEqualsLine(st, loc, clean, isIndented);
      loc, keyLoc, curKey, values, sent, stop := ScanNoEquals(h, st, loc, clean, isIndented);
    } else {
      assert Step(st, text) == PairLine(st, loc, clean, eq);
      loc, keyLoc, curKey, values, sent, stop := ScanPair(h, st, loc, clean, eq);
    }
  }

  /** A trimmed line starting with '[' (ini.go's section-header block). */
  method ScanHeader(h: Handler, st: ScanState, loc0: Location, clean: string)
    returns (loc: Location, keyLoc: Location, curKey: string, values: seq<string>,
             sent: seq<Event>, stop: Option<Status>)
    requires clean != [] && clean[0] == '['
    ensures Handled(h, HeaderLine(st, loc0, clean), ScanState(loc, keyLoc, curKey, values), sent, stop)
  {
    loc, keyLoc, curKey, values := loc0, st.keyLoc, st.curKey, st.values;
    sent, stop := [], None;
    if clean[|clean| - 1] != ']' {
      return loc, keyLoc, curKey, values, [], Some(SyntaxFailure(SyntaxError(loc, MsgUnclosedHeader, clean[1..])));
    }
    var name := CleanKey(clean[1..|clean| - 1]);
    if name == "" || ContainsAny(name, "[]") {
      return loc, keyLoc, curKey, values, [], Some(SyntaxFailure(SyntaxError(loc, MsgInvalidSection, name)));
    }
    assert HeaderLine(st, loc0, clean) == Next(Pending(st) + [Section(loc, name)], Cleared(st).(loc := loc.(section := name)));
    var refusal;
    sent, refusal := Emit(h, keyLoc, curKey, values);
    assert sent == Pending(st);
    if refusal.Some? {
      return loc, keyLoc, curKey, values, sent, Some(HandlerFailure(refusal.value));
    }
    assert Deliver(h, sent) == Accepted;
    curKey, values := "", [];
    var err := h.CallSection(loc, name);
    assert err == h.Dispatch(Section(loc, name));
    sent := sent + [Section(loc, name)];
    if err.Some? {
      return loc, keyLoc, curKey, values, sent, Some(HandlerFailure(err.value));
    }
    loc := loc.(section := name);
  }

  /** A trimmed line without '=' (ini.go's continuation and bare-key block). */
  method ScanNoEquals(h: Handler, st: ScanState, loc0: Location, clean: string, isIndented: bool)
    returns (loc: Location, keyLoc: Location, curKey: string, values: seq<string>,
             sent: seq<Event>, stop: Option<Status>)
    ensures Handled(h, NoEqualsLine(st, loc0, clean, isIndented), ScanState(loc, keyLoc, curKey, values), sent, stop)
  {
    loc, keyLoc, curKey, values := loc0, st.keyLoc, st.curKey, st.values;
    sent, stop := [], None;
    // An indented line continues the pending key.
    if isIndented && curKey != "" {
      if |values| == 1 && values[0] == "" {
        values := values[0 := clean];
      } else {
        values := values + [clean];
      }
      return;
    }

    // Otherwise it is a bare key with one empty value, delivered at once.
    var refusal;
    sent, refusal := Emit(h, keyLoc, curKey, values);
    if refusal.Some? {
      return loc, keyLoc, curKey, values, sent, Some(HandlerFailure(refusal.value));
    }
    curKey, values := "", [];
    var err := h.CallKeyValue(loc, CleanKey(clean), [""]);
    sent := sent + [KeyValue(loc, CleanKey(clean), [""])];
    if err.Some? {
      return loc, keyLoc, curKey, values, sent, Some(HandlerFailure(err.value));
    }
  }

  /** A trimmed line with its first '=' at `eq` (ini.go's key=value block):
      the value is accumulated under its key. */
  method ScanPair(h: Handler, st: ScanState, loc0: Location, clean: string, eq: nat)
    returns (loc: Location, keyLoc: Location, curKey: string, values: seq<string>,
             sent: seq<Event>, stop: Option<Status>)
    requires eq < |clean|
    ensures Handled(h, PairLine(st, loc0, clean, eq), ScanState(loc, keyLoc, curKey, values), sent, stop)
  {
    loc, keyLoc, curKey, values := loc0, st.keyLoc, st.curKey, st.values;
    sent, stop := [], None;
    var key := CleanKey(clean[..eq]);
    if key == "" {
      return loc, keyLoc, curKey, values, [], Some(SyntaxFailure(SyntaxError(loc, MsgEmptyKey, "")));
    }
    var value := TrimSpace(clean[eq + 1..]);
    if key != curKey {
      var refusal;
      sent, refusal := Emit(h, keyLoc, curKey, values);
      if refusal.Some? {
        return loc, keyLoc, curKey, values, sent, Some(HandlerFailure(refusal.value));
      }
      curKey, values := "", [];
      keyLoc := loc;
      curKey := key;
    }
    values := values + [value];
  }

  /** ini.go's `Parse` over an input already split into lines: the events
      the handler receives and the outcome are those of the scan as the
      handler observes it. */
  method Parse(h: Handler, lines: seq<string>) returns (delivered: seq<Event>, status: Status)
    ensures Parsed(delivered, status) == Observe(h, ScanAll(lines))
  {
    var loc := Location(0, "");
    var keyLoc := Location(0, "");
    var curKey := "";
    var values: seq<string> := [];
    delivered := [];
    var i := 0;
    while i < |lines|
      invariant i <= |lines|
      invariant Scan(lines[..i]) == Running(delivered, ScanState(loc, keyLoc, curKey, values))
      invariant Deliver(h, delivered) == Accepted
    {
      ScanSnoc(lines, i);
      var sent, stop;
      loc, keyLoc, curKey, values, sent, stop := ScanLine(h, loc, keyLoc, curKey, values, lines[i]);
      i := i + 1;
      if stop.Some? {
        LineStops(h, lines, i - 1, delivered, sent, stop.value);
        return delivered + sent, stop.value;
      }
      AcceptedConcat(h, delivered, sent);
      delivered := delivered + sent;
    }
    assert lines[..i] == lines;
    var sent, refusal := Emit(h, keyLoc, curKey, values);  // any leftover group
    if refusal.Some? {
      ObserveRefused(h, ScanAll(lines), |delivered|, refusal.value);
      return delivered + sent, HandlerFailure(refusal.value);
    }
    AcceptedConcat(h, delivered, sent);
    delivered := delivered + sent;
    status := Success;
  }
}
