/** What the INI scanner promises about the events it produces: where each
    one comes from, the order they come in, the section each carries, and
    how and where a syntax error stops the scan. */
module IniProperties {
  import opened Text
  import opened Ini

  /** The name of the last section header among `evs`, or "" when there is
      none. */
  function LastSection(evs: seq<Event>): string {
    if evs == [] then ""
    else if evs[|evs| - 1].Section? then evs[|evs| - 1].name
    else LastSection(evs[..|evs| - 1])
  }

  /** An event as the line `text` produces it.  A comment carries that raw
      line; a section header's name is the normalised text between its
      brackets; a key comes from a line that is neither a comment nor a
      header, and is the normalised text before the first '=' or, on a line
      without '=', the whole normalised line with the single value "". */
  ghost predicate FromText(ev: Event, text: string) {
    var c := TrimSpace(text);
    match ev
    case Comment(_, t) =>
      t == text && c != [] && c[0] == ';'
    case Section(_, name) =>
      && |c| >= 2 && c[0] == '[' && c[|c| - 1] == ']'
      && name == CleanKey(c[1..|c| - 1])
      && name != "" && '[' !in name && ']' !in name
    case KeyValue(_, key, values) =>
      && c != [] && c[0] != ';' && c[0] != '['
      && key != "" && values != []
      && (if '=' in c then key == CleanKey(c[..IndexOf(c, '=')])
          else key == CleanKey(c) && values == [""])
  }

  /** An event as the input line at its location produces it. */
  ghost predicate FromLine(ev: Event, lines: seq<string>) {
    1 <= ev.loc.line <= |lines| && FromText(ev, lines[ev.loc.line - 1])
  }

  /** Events strictly in the order of their lines. */
  predicate Ordered(evs: seq<Event>) {
    forall j, k :: 0 <= j < k < |evs| ==> evs[j].loc.line < evs[k].loc.line
  }

  /** Every event carries the name of the last section header before it
      (stated event by event in `SectionedAt`). */
  predicate Sectioned(evs: seq<Event>) {
    evs == [] ||
      var init := evs[..|evs| - 1];
      Sectioned(init) && evs[|evs| - 1].loc.section == LastSection(init)
  }

  lemma {:induction false} SectionedAt(evs: seq<Event>, k: int)
    requires Sectioned(evs) && 0 <= k < |evs|
    ensures evs[k].loc.section == LastSection(evs[..k])
  {
    var init := evs[..|evs| - 1];
    if k < |init| {
      SectionedAt(init, k);
      assert init[..k] == evs[..k];
    }
  }

  /** A well-formed event stream for the given input lines. */
  ghost predicate Trace(lines: seq<string>, evs: seq<Event>) {
    && (forall k :: 0 <= k < |evs| ==> FromLine(evs[k], lines))
    && Ordered(evs)
    && Sectioned(evs)
  }

  /** Every event of `evs` is located before line `n`. */
  predicate Before(evs: seq<Event>, n: int) {
    forall k :: 0 <= k < |evs| ==> evs[k].loc.line < n
  }

  /** The scanner's invariant after `lines`: a well-formed stream so far,
      the line count, the current section, and a pending key (present
      exactly when it has values) that is a well-formed key/value event
      begun after every released event, in the current section. */
  ghost predicate Consistent(lines: seq<string>, evs: seq<Event>, st: ScanState) {
    && Trace(lines, evs)
    && Before(evs, |lines| + 1)
    && st.loc.line == |lines|
    && st.loc.section == LastSection(evs)
    && (st.curKey == "" <==> st.values == [])
    && (st.curKey != "" ==> PendingOk(lines, evs, st))
  }

  /** The pending key: begun by a `key=value` line of the input after every
      released event, in the current section. */
  ghost predicate PendingOk(lines: seq<string>, evs: seq<Event>, st: ScanState) {
    PendingAt(lines, evs, st.keyLoc, st.curKey, st.loc.section)
  }

  ghost predicate PendingAt(lines: seq<string>, evs: seq<Event>, keyLoc: Location, key: string, section: string) {
    && 1 <= keyLoc.line <= |lines|
    && KeyOrigin(key, lines[keyLoc.line - 1])
    && keyLoc.section == section
    && Before(evs, keyLoc.line)
  }

  /** The line a pending key begins on: neither a comment nor a header, with
      an '=' whose left side normalises to the (non-empty) key. */
  ghost predicate KeyOrigin(key: string, text: string) {
    var c := TrimSpace(text);
    && c != [] && c[0] != ';' && c[0] != '[' && '=' in c
    && key != "" && key == CleanKey(c[..IndexOf(c, '=')])
  }

  /** A syntax error as the text of the line it is reported on explains it:
      one of the three cases below, on the trimmed line. */
  predicate ErrorFromLine(e: SyntaxError, text: string) {
    var c := TrimSpace(text);
    UnclosedHeader(e, c) || InvalidSection(e, c) || EmptyKey(e, c)
  }

  /** A line that opens a header and does not close it; the key is what
      follows the '['. */
  predicate UnclosedHeader(e: SyntaxError, c: string) {
    && e.desc == MsgUnclosedHeader
    && c != [] && c[0] == '[' && c[|c| - 1] != ']' && e.key == c[1..]
  }

  /** A closed header whose normalised name is empty or holds a bracket; the
      key is that name. */
  predicate InvalidSection(e: SyntaxError, c: string) {
    && e.desc == MsgInvalidSection
    && |c| >= 2 && c[0] == '[' && c[|c| - 1] == ']'
    && e.key == CleanKey(c[1..|c| - 1])
    && (e.key == "" || '[' in e.key || ']' in e.key)
  }

  /** A `key=value` line with nothing but whitespace before its first '=';
      the key is "". */
  predicate EmptyKey(e: SyntaxError, c: string) {
    && e.desc == MsgEmptyKey
    && c != [] && c[0] != ';' && c[0] != '[' && '=' in c
    && AllSpace(c[..IndexOf(c, '=')]) && e.key == ""
  }

  // ---------------------------------------------------------------------
  // One line at a time

  /** A blank line releases nothing and leaves the pending key alone; only
      the line number moves. */
  lemma BlankLine(st: ScanState, text: string)
    requires AllSpace(text)
    ensures Step(st, text) == Next([], st.(loc := st.loc.(line := st.loc.line + 1)))
  {
  }

  /** An indented line without '=' while a key is pending is one more value
      of that key: nothing is released, the key and its origin stay, the
      value (never empty) replaces a lone "" or is appended. */
  lemma Continuation(st: ScanState, text: string)
    requires IsIndented(text) && st.curKey != ""
    requires var c := TrimSpace(text); c != [] && c[0] != ';' && c[0] != '[' && '=' !in c
    ensures var c := TrimSpace(text);
      && c != ""
      && Step(st, text) == Next([], st.(loc := st.loc.(line := st.loc.line + 1),
                                        values := if st.values == [""] then [c] else st.values + [c]))
  {
    var c := TrimSpace(text);
    assert st.values == [""] <==> |st.values| == 1 && st.values[0] == "";
  }

  /** A line without '=' that does not continue a pending key is a bare key:
      the pending group is released first, then the bare key at once with
      the single value "", and nothing is left pending. */
  lemma BareKey(st: ScanState, text: string)
    requires !(IsIndented(text) && st.curKey != "")
    requires var c := TrimSpace(text); c != [] && c[0] != ';' && c[0] != '[' && '=' !in c
    ensures var loc := st.loc.(line := st.loc.line + 1);
      && Step(st, text) == Next(Pending(st) + [KeyValue(loc, CleanKey(TrimSpace(text)), [""])],
                                st.(loc := loc, curKey := "", values := []))
      && CleanKey(TrimSpace(text)) != ""
  {
  }

  /** A `key=value` line for the key already pending adds one value to it
      and releases nothing; for any other key it releases the pending group
      and starts a new one at this line. */
  lemma KeyValueLine(st: ScanState, text: string)
    requires var c := TrimSpace(text); c != [] && c[0] != ';' && c[0] != '[' && '=' in c
    requires var c := TrimSpace(text); CleanKey(c[..IndexOf(c, '=')]) != ""
    ensures var c := TrimSpace(text);
      var i := IndexOf(c, '=');
      var key := CleanKey(c[..i]);
      var value := TrimSpace(c[i + 1..]);
      var loc := st.loc.(line := st.loc.line + 1);
      && (key == st.curKey ==> Step(st, text) == Next([], st.(loc := loc, values := st.values + [value])))
      && (key != st.curKey ==> Step(st, text) == Next(Pending(st), ScanState(loc, loc, key, [value])))
  {
    StepPair(st, text);
  }

  /** A line that is neither blank, a comment nor a header, and holds an
      '=', is scanned as a key/value pair split at its first '='. */
  lemma StepPair(st: ScanState, text: string)
    requires var c := TrimSpace(text); c != [] && c[0] != ';' && c[0] != '[' && '=' in c
    ensures var c := TrimSpace(text);
      Step(st, text) == PairLine(st, st.loc.(line := st.loc.line + 1), c, IndexOf(c, '='))
  {
  }

  /** A syntax error is explained by the line alone, is reported at that
      line in the current section, and releases nothing: the pending group
      is not flushed. */
  lemma StopExplained(st: ScanState, text: string)
    requires Step(st, text).Stop?
    ensures Step(st, text).err.loc == st.loc.(line := st.loc.line + 1)
    ensures ErrorFromLine(Step(st, text).err, text)
  {
    var c := TrimSpace(text);
    if c[0] == '[' {
      if c[|c| - 1] == ']' {
        var name := CleanKey(c[1..|c| - 1]);
        assert ContainsAny(name, "[]") ==> '[' in name || ']' in name;
      }
    } else {
      assert '=' in c;
    }
  }

  /** Conversely, a line an error explains stops the scan with that error
      in every state: whether a line is a syntax error never depends on
      what came before it. */
  lemma BadLineStops(st: ScanState, text: string, e: SyntaxError)
    requires ErrorFromLine(e, text) && e.loc == st.loc.(line := st.loc.line + 1)
    ensures Step(st, text) == Stop(e)
  {
    var c := TrimSpace(text);
    if UnclosedHeader(e, c) {
      assert Step(st, text) == HeaderLine(st, e.loc, c);
    } else if InvalidSection(e, c) {
      InvalidSectionStops(st, e, c);
      assert Step(st, text) == HeaderLine(st, e.loc, c);
    } else {
      assert '=' in c;
      assert Step(st, text) == PairLine(st, e.loc, c, IndexOf(c, '='));
    }
  }

  lemma InvalidSectionStops(st: ScanState, e: SyntaxError, c: string)
    requires InvalidSection(e, c)
    ensures HeaderLine(st, e.loc, c) == Stop(e)
  {
    if '[' in e.key {
      var i :| 0 <= i < |e.key| && e.key[i] == '[';
      assert e.key[i] in "[]";
    } else if ']' in e.key {
      var i :| 0 <= i < |e.key| && e.key[i] == ']';
      assert e.key[i] in "[]";
    }
  }

  /** A step that releases nothing and only moves the line and changes the
      pending values (a blank line, a continuation, another value for the
      pending key); a pending key keeps at least one value. */
  predicate Quiet(st: ScanState, loc: Location, r: StepResult) {
    && r.Next? && r.out == []
    && r.st == st.(loc := loc, values := r.st.values)
    && (st.curKey == "" ==> r.st.values == st.values)
    && (st.curKey != "" ==> r.st.values != [])
  }

  /** A step that releases the pending group and then one event of its own
      line, leaving nothing pending (a comment, a section header, a bare
      key). */
  ghost predicate Emits(st: ScanState, loc: Location, text: string, r: StepResult) {
    && r.Next? && |r.out| == |Pending(st)| + 1
    && var e := r.out[|r.out| - 1];
    && r.out == Pending(st) + [e]
    && e.loc == loc && FromText(e, text)
    && r.st == ScanState(if e.Section? then loc.(section := e.name) else loc, st.keyLoc, "", [])
  }

  /** A step that releases the pending group and begins a new key at its
      own line (a `key=value` line for another key). */
  ghost predicate Begins(st: ScanState, loc: Location, text: string, r: StepResult) {
    && r.Next? && r.out == Pending(st)
    && r.st.loc == loc && r.st.keyLoc == loc
    && r.st.curKey != st.curKey && r.st.values != []
    && KeyOrigin(r.st.curKey, text)
  }

  /** Every step that does not stop has one of the three shapes, whatever
      the state, as long as a key is pending exactly when it has values. */
  lemma StepShape(st: ScanState, text: string)
    requires Step(st, text).Next?
    requires st.curKey == "" <==> st.values == []
    ensures var loc := st.loc.(line := st.loc.line + 1);
      || Quiet(st, loc, Step(st, text))
      || Emits(st, loc, text, Step(st, text))
      || Begins(st, loc, text, Step(st, text))
  {
    var loc := st.loc.(line := st.loc.line + 1);
    var c := TrimSpace(text);
    if c == "" {
      assert Quiet(st, loc, Step(st, text));
    } else if c[0] == ';' {
      var e := Comment(loc, text);
      assert FromText(e, text);
      assert Emits(st, loc, text, Step(st, text));
    } else if c[0] == '[' {
      assert Step(st, text) == HeaderLine(st, loc, c);
      HeaderShape(st, loc, text, c);
    } else if '=' !in c {
      assert Step(st, text) == NoEqualsLine(st, loc, c, IsIndented(text));
      NoEqualsShape(st, loc, text, c);
    } else {
      var i := IndexOf(c, '=');
      assert Step(st, text) == PairLine(st, loc, c, i);
      PairShape(st, loc, text, c, i);
    }
  }

  lemma HeaderShape(st: ScanState, loc: Location, text: string, c: string)
    requires c == TrimSpace(text) && c != [] && c[0] == '['
    requires HeaderLine(st, loc, c).Next?
    ensures Emits(st, loc, text, HeaderLine(st, loc, c))
  {
    var name := CleanKey(c[1..|c| - 1]);
    NoBrackets(name);
    var e := Section(loc, name);
    assert FromText(e, text);
    assert HeaderLine(st, loc, c).out == Pending(st) + [e];
  }

  lemma NoEqualsShape(st: ScanState, loc: Location, text: string, c: string)
    requires c == TrimSpace(text) && c != [] && c[0] != ';' && c[0] != '[' && '=' !in c
    requires st.curKey == "" <==> st.values == []
    ensures var r := NoEqualsLine(st, loc, c, IsIndented(text));
      Quiet(st, loc, r) || Emits(st, loc, text, r)
  {
    if !(IsIndented(text) && st.curKey != "") {
      var e := KeyValue(loc, CleanKey(c), [""]);
      assert FromText(e, text);
      assert NoEqualsLine(st, loc, c, IsIndented(text)).out == Pending(st) + [e];
      assert Emits(st, loc, text, NoEqualsLine(st, loc, c, IsIndented(text)));
    }
  }

  lemma PairShape(st: ScanState, loc: Location, text: string, c: string, i: nat)
    requires c == TrimSpace(text) && c != [] && c[0] != ';' && c[0] != '[' && '=' in c
    requires i == IndexOf(c, '=')
    requires PairLine(st, loc, c, i).Next?
    ensures var r := PairLine(st, loc, c, i);
      Quiet(st, loc, r) || Begins(st, loc, text, r)
  {
  }

  // ---------------------------------------------------------------------
  // Growing the stream

  lemma FromLineGrows(ev: Event, lines: seq<string>, more: seq<string>)
    requires FromLine(ev, lines)
    ensures FromLine(ev, lines + more)
  {
    assert (lines + more)[ev.loc.line - 1] == lines[ev.loc.line - 1];
  }

  lemma TraceGrows(lines: seq<string>, evs: seq<Event>, more: seq<string>)
    requires Trace(lines, evs)
    ensures Trace(lines + more, evs)
  {
    forall k | 0 <= k < |evs| ensures FromLine(evs[k], lines + more) {
      FromLineGrows(evs[k], lines, more);
    }
  }

  /** One more event, later than all the others and in the current section,
      keeps a stream well-formed. */
  lemma Push(lines: seq<string>, evs: seq<Event>, e: Event)
    requires Trace(lines, evs) && FromLine(e, lines)
    requires Before(evs, e.loc.line)
    requires e.loc.section == LastSection(evs)
    ensures Trace(lines, evs + [e])
    ensures LastSection(evs + [e]) == if e.Section? then e.name else LastSection(evs)
  {
    PushOrdered(evs, e);
    PushSectioned(evs, e);
    PushFromLine(lines, evs, e);
  }

  lemma PushFromLine(lines: seq<string>, evs: seq<Event>, e: Event)
    requires forall k :: 0 <= k < |evs| ==> FromLine(evs[k], lines)
    requires FromLine(e, lines)
    ensures forall k :: 0 <= k < |evs + [e]| ==> FromLine((evs + [e])[k], lines)
  {
    forall k | 0 <= k < |evs + [e]| ensures FromLine((evs + [e])[k], lines) {
      if k < |evs| {
        assert (evs + [e])[k] == evs[k];
      } else {
        assert (evs + [e])[k] == e;
      }
    }
  }

  lemma PushOrdered(evs: seq<Event>, e: Event)
    requires Ordered(evs)
    requires Before(evs, e.loc.line)
    ensures Ordered(evs + [e])
  {
  }

  lemma PushSectioned(evs: seq<Event>, e: Event)
    requires Sectioned(evs)
    requires e.loc.section == LastSection(evs)
    ensures Sectioned(evs + [e])
    ensures LastSection(evs + [e]) == if e.Section? then e.name else LastSection(evs)
  {
    assert (evs + [e])[..|evs|] == evs;
  }

  /** The state after another line is still consistent, whenever the line
      is not a syntax error. */
  lemma StepConsistent(lines: seq<string>, evs: seq<Event>, st: ScanState, text: string)
    requires Consistent(lines, evs, st)
    requires Step(st, text).Next?
    ensures Consistent(lines + [text], evs + Step(st, text).out, Step(st, text).st)
  {
    StepShape(st, text);
    ShapeConsistent(lines, evs, st, text, Step(st, text));
  }

  /** A step of any of the three shapes keeps the scanner consistent. */
  lemma ShapeConsistent(lines: seq<string>, evs: seq<Event>, st: ScanState, text: string, r: StepResult)
    requires Consistent(lines, evs, st)
    requires var loc := st.loc.(line := st.loc.line + 1);
      Quiet(st, loc, r) || Emits(st, loc, text, r) || Begins(st, loc, text, r)
    ensures Consistent(lines + [text], evs + r.out, r.st)
  {
    var lines' := lines + [text];
    var loc := st.loc.(line := st.loc.line + 1);
    TraceGrows(lines, evs, [text]);
    if st.curKey != "" {
      assert lines'[st.keyLoc.line - 1] == lines[st.keyLoc.line - 1];
      assert PendingOk(lines', evs, st);
    }
    if Quiet(st, loc, r) {
      QuietConsistent(lines, evs, st, text, r);
    } else if Begins(st, loc, text, r) {
      BeginsConsistent(lines, evs, st, text, r);
    } else {
      EmitsConsistent(lines, evs, st, text, r);
    }
  }

  lemma QuietConsistent(lines: seq<string>, evs: seq<Event>, st: ScanState, text: string, r: StepResult)
    requires Consistent(lines, evs, st) && Trace(lines + [text], evs)
    requires st.curKey != "" ==> PendingOk(lines + [text], evs, st)
    requires Quiet(st, st.loc.(line := st.loc.line + 1), r)
    ensures Consistent(lines + [text], evs + r.out, r.st)
  {
    assert evs + r.out == evs;
    BeforeLater(evs, |lines| + 1, |lines| + 2);
    QuietState(lines + [text], evs, st, r.st.values);
  }

  /** Moving to the next line and changing only the pending values keeps
      the scanner consistent. */
  lemma QuietState(lines: seq<string>, evs: seq<Event>, st: ScanState, values: seq<string>)
    requires Trace(lines, evs) && Before(evs, |lines| + 1)
    requires st.loc.line + 1 == |lines| && st.loc.section == LastSection(evs)
    requires st.curKey == "" <==> values == []
    requires st.curKey != "" ==> PendingOk(lines, evs, st)
    ensures Consistent(lines, evs, st.(loc := st.loc.(line := st.loc.line + 1), values := values))
  {
    var st' := st.(loc := st.loc.(line := st.loc.line + 1), values := values);
    if st.curKey != "" {
      assert PendingOk(lines, evs, st');
    }
  }

  lemma BeforeLater(evs: seq<Event>, n: int, m: int)
    requires Before(evs, n) && n <= m
    ensures Before(evs, m)
  {
  }

  lemma BeginsConsistent(lines: seq<string>, evs: seq<Event>, st: ScanState, text: string, r: StepResult)
    requires Consistent(lines, evs, st) && Trace(lines + [text], evs)
    requires st.curKey != "" ==> PendingOk(lines + [text], evs, st)
    requires Begins(st, st.loc.(line := st.loc.line + 1), text, r)
    ensures Consistent(lines + [text], evs + r.out, r.st)
  {
    var lines' := lines + [text];
    assert lines'[|lines|] == text;
    FlushPending(lines', evs, st, |lines| + 1);
  }

  lemma EmitsConsistent(lines: seq<string>, evs: seq<Event>, st: ScanState, text: string, r: StepResult)
    requires Consistent(lines, evs, st) && Trace(lines + [text], evs)
    requires st.curKey != "" ==> PendingOk(lines + [text], evs, st)
    requires Emits(st, st.loc.(line := st.loc.line + 1), text, r)
    ensures Consistent(lines + [text], evs + r.out, r.st)
  {
    var lines' := lines + [text];
    assert lines'[|lines|] == text;
    var e := r.out[|r.out| - 1];
    assert FromLine(e, lines');
    var pre := evs + Pending(st);
    FlushPending(lines', evs, st, |lines| + 1);
    Push(lines', pre, e);
    BeforeSnoc(pre, e, |lines| + 2);
    AppendAssoc(evs, Pending(st), e);
  }

  lemma AppendAssoc(a: seq<Event>, b: seq<Event>, e: Event)
    ensures a + (b + [e]) == (a + b) + [e]
  {
  }

  /** Releasing the pending group keeps the stream well-formed, in the
      current section and before line `n`. */
  lemma FlushPending(lines: seq<string>, evs: seq<Event>, st: ScanState, n: int)
    requires Trace(lines, evs) && st.loc.section == LastSection(evs) && Before(evs, n)
    requires st.curKey != "" ==> PendingOk(lines, evs, st) && st.values != [] && st.keyLoc.line < n
    ensures Trace(lines, evs + Pending(st))
    ensures LastSection(evs + Pending(st)) == st.loc.section
    ensures Before(evs + Pending(st), n)
  {
    if st.curKey != "" {
      FlushKey(lines, evs, st, n);
    } else {
      assert evs + Pending(st) == evs;
    }
  }

  lemma FlushKey(lines: seq<string>, evs: seq<Event>, st: ScanState, n: int)
    requires Trace(lines, evs) && st.loc.section == LastSection(evs) && Before(evs, n)
    requires st.curKey != "" && PendingOk(lines, evs, st) && st.values != [] && st.keyLoc.line < n
    ensures Trace(lines, evs + Pending(st))
    ensures LastSection(evs + Pending(st)) == st.loc.section
    ensures Before(evs + Pending(st), n)
  {
    KeyFromLine(lines, evs, st);
    FlushTrace(lines, evs, st);
    FlushBefore(evs, st, n);
  }

  lemma FlushTrace(lines: seq<string>, evs: seq<Event>, st: ScanState)
    requires Trace(lines, evs) && st.loc.section == LastSection(evs) && st.curKey != ""
    requires Before(evs, st.keyLoc.line) && st.keyLoc.section == st.loc.section
    requires FromLine(KeyValue(st.keyLoc, st.curKey, st.values), lines)
    ensures Trace(lines, evs + Pending(st))
    ensures LastSection(evs + Pending(st)) == st.loc.section
  {
    Push(lines, evs, KeyValue(st.keyLoc, st.curKey, st.values));
  }

  lemma FlushBefore(evs: seq<Event>, st: ScanState, n: int)
    requires Before(evs, n) && st.curKey != "" && st.keyLoc.line < n
    ensures Before(evs + Pending(st), n)
  {
    BeforeSnoc(evs, KeyValue(st.keyLoc, st.curKey, st.values), n);
  }

  /** A pending key with values is the key/value event of its line. */
  lemma KeyFromLine(lines: seq<string>, evs: seq<Event>, st: ScanState)
    requires PendingOk(lines, evs, st) && st.values != []
    ensures FromLine(KeyValue(st.keyLoc, st.curKey, st.values), lines)
  {
  }

  lemma BeforeSnoc(evs: seq<Event>, e: Event, n: int)
    requires Before(evs, n) && e.loc.line < n
    ensures Before(evs + [e], n)
  {
    assert forall k :: 0 <= k < |evs| ==> (evs + [e])[k] == evs[k];
  }

  /** A name `ContainsAny` finds no bracket in holds neither bracket. */
  lemma NoBrackets(name: string)
    requires !ContainsAny(name, "[]")
    ensures '[' !in name && ']' !in name
  {
  }

  // ---------------------------------------------------------------------
  // Whole inputs

  /** What holds after scanning `lines`: a running scan is consistent; a
      failed one has a well-formed stream, and its error is explained by
      its own line, which comes after every released event, in the current
      section, and after which no line was looked at. */
  ghost predicate ScanFacts(lines: seq<string>) {
    ProgressFacts(lines, Scan(lines))
  }

  ghost predicate ProgressFacts(lines: seq<string>, p: Progress) {
    match p
    case Running(evs, st) => Consistent(lines, evs, st)
    case Failed(evs, e) => FailedFacts(lines, evs, e)
  }

  ghost predicate FailedFacts(lines: seq<string>, evs: seq<Event>, e: SyntaxError) {
    && Trace(lines, evs)
    && 1 <= e.loc.line <= |lines|
    && ErrorFromLine(e, lines[e.loc.line - 1])
    && e.loc.section == LastSection(evs)
    && Before(evs, e.loc.line)
    && Scan(lines[..e.loc.line]) == Failed(evs, e)
  }

  /** The scanner's invariant holds after every input. */
  lemma {:induction false} ScanConsistent(lines: seq<string>)
    ensures ScanFacts(lines)
  {
    if lines != [] {
      var init := lines[..|lines| - 1];
      var text := lines[|lines| - 1];
      assert lines == init + [text];
      ScanConsistent(init);
      ScanFactsStep(init, text);
    }
  }

  lemma ScanFactsStep(init: seq<string>, text: string)
    requires ScanFacts(init)
    ensures ScanFacts(init + [text])
  {
    ScanOneMore(init, text);
    match Scan(init)
    case Failed(evs, e) =>
      FailedGrows(init, text, evs, e);
    case Running(evs, st) =>
      if Step(st, text).Stop? {
        StopFacts(init, text, evs, st);
      } else {
        StepConsistent(init, evs, st, text);
      }
  }

  lemma FailedGrows(init: seq<string>, text: string, evs: seq<Event>, e: SyntaxError)
    requires FailedFacts(init, evs, e)
    ensures FailedFacts(init + [text], evs, e)
  {
    var lines := init + [text];
    TraceGrows(init, evs, [text]);
    assert lines[e.loc.line - 1] == init[e.loc.line - 1];
    assert lines[..e.loc.line] == init[..e.loc.line];
  }

  lemma StopFacts(init: seq<string>, text: string, evs: seq<Event>, st: ScanState)
    requires Consistent(init, evs, st) && Scan(init) == Running(evs, st)
    requires Step(st, text).Stop?
    ensures FailedFacts(init + [text], evs, Step(st, text).err)
  {
    var lines := init + [text];
    var e := Step(st, text).err;
    StopExplained(st, text);
    TraceGrows(init, evs, [text]);
    assert lines[|init|] == text;
    assert lines[..e.loc.line] == lines;
    ScanOneMore(init, text);
  }

  /** Every event stream the scanner produces, whether or not it ends in a
      syntax error, is well-formed: each event comes from the line it is
      located at, the lines are 1-based, strictly increasing and within the
      input, every event carries the section in force before it, every key
      and section name is non-empty and normalised, and every key has at
      least one value. */
  lemma StreamWellFormed(lines: seq<string>)
    ensures var evs := ScanAll(lines).events;
      && Trace(lines, evs)
      && (forall k :: 0 <= k < |evs| ==> 1 <= evs[k].loc.line <= |lines|)
      && (forall k :: 0 <= k < |evs| && evs[k].KeyValue? ==>
            evs[k].key != "" && IsNormal(evs[k].key) && evs[k].values != [])
      && (forall k :: 0 <= k < |evs| && evs[k].Section? ==>
            evs[k].name != "" && IsNormal(evs[k].name))
  {
    FinalTrace(lines);
    var evs := ScanAll(lines).events;
    forall k | 0 <= k < |evs|
      ensures 1 <= evs[k].loc.line <= |lines|
      ensures evs[k].KeyValue? ==> evs[k].key != "" && IsNormal(evs[k].key) && evs[k].values != []
      ensures evs[k].Section? ==> evs[k].name != "" && IsNormal(evs[k].name)
    {
      assert FromLine(evs[k], lines);
      EventNormal(evs[k], lines[evs[k].loc.line - 1]);
    }
  }

  /** The whole stream, with the final flush, is well-formed. */
  lemma FinalTrace(lines: seq<string>)
    ensures Trace(lines, ScanAll(lines).events)
  {
    ScanConsistent(lines);
    match Scan(lines)
    case Failed(evs, e) =>
    case Running(evs, st) =>
      if st.curKey != "" {
        FlushKey(lines, evs, st, |lines| + 1);
      } else {
        assert evs + Pending(st) == evs;
      }
  }

  /** The key or name of an event a line produces is in normal form. */
  lemma EventNormal(ev: Event, text: string)
    requires FromText(ev, text)
    ensures ev.KeyValue? ==> ev.key != "" && IsNormal(ev.key) && ev.values != []
    ensures ev.Section? ==> ev.name != "" && IsNormal(ev.name)
  {
    if ev.Section? {
      SectionNormal(ev, text);
    } else if ev.KeyValue? {
      KeyNormal(ev, text);
    }
  }

  lemma SectionNormal(ev: Event, text: string)
    requires ev.Section? && FromText(ev, text)
    ensures ev.name != "" && IsNormal(ev.name)
  {
    var c := TrimSpace(text);
    NormalOf(ev.name, c[1..|c| - 1]);
  }

  lemma KeyNormal(ev: Event, text: string)
    requires ev.KeyValue? && FromText(ev, text)
    ensures ev.key != "" && IsNormal(ev.key) && ev.values != []
  {
    var c := TrimSpace(text);
    var raw := if '=' in c then c[..IndexOf(c, '=')] else c;
    NormalOf(ev.key, raw);
  }

  lemma NormalOf(name: string, raw: string)
    requires name == CleanKey(raw)
    ensures IsNormal(name)
  {
    CleanKeyNormal(raw);
  }

  /** A syntax error ends the stream at the line it explains: the events
      before it are exactly those released by the lines before it, and the
      lines after it are never looked at. */
  lemma ErrorLocality(lines: seq<string>, more: seq<string>)
    requires ScanAll(lines).Fail?
    ensures var e := ScanAll(lines).err;
      && 1 <= e.loc.line <= |lines|
      && ErrorFromLine(e, lines[e.loc.line - 1])
      && e.loc.section == LastSection(ScanAll(lines).events)
      && ScanAll(lines + more) == ScanAll(lines)
    ensures var e := ScanAll(lines).err;
      var before := Scan(lines[..e.loc.line - 1]);
      && before.Running?
      && Step(before.st, lines[e.loc.line - 1]) == Stop(e)
      && ScanAll(lines).events == before.events
  {
    ErrorExplained(lines);
    FailedStays(lines, more);
    ErrorLine(lines);
  }

  /** The error of a failed scan is the stop of a running scan at its line:
      the events are those of the lines before it, and the key pending
      there is never released. */
  lemma ErrorLine(lines: seq<string>)
    requires ScanAll(lines).Fail?
    ensures var e := ScanAll(lines).err;
      && 1 <= e.loc.line <= |lines|
      && var before := Scan(lines[..e.loc.line - 1]);
      && before.Running?
      && Step(before.st, lines[e.loc.line - 1]) == Stop(e)
      && ScanAll(lines).events == before.events
  {
    ScanConsistent(lines);
    var e := ScanAll(lines).err;
    var n := e.loc.line;
    ScanSnoc(lines, n - 1);
    ScanConsistent(lines[..n - 1]);
    assert lines[..n][..n - 1] == lines[..n - 1];
  }

  lemma ErrorExplained(lines: seq<string>)
    requires ScanAll(lines).Fail?
    ensures var e := ScanAll(lines).err;
      && 1 <= e.loc.line <= |lines|
      && ErrorFromLine(e, lines[e.loc.line - 1])
      && e.loc.section == LastSection(ScanAll(lines).events)
  {
    var evs, e := ScanAll(lines).events, ScanAll(lines).err;
    ScanAllFailed(lines);
    FailedScanFacts(lines);
    FailedExplained(lines, evs, e);
  }

  lemma ScanAllFailed(lines: seq<string>)
    requires ScanAll(lines).Fail?
    ensures Scan(lines) == Failed(ScanAll(lines).events, ScanAll(lines).err)
  {
  }

  lemma FailedExplained(lines: seq<string>, evs: seq<Event>, e: SyntaxError)
    requires FailedFacts(lines, evs, e)
    ensures 1 <= e.loc.line <= |lines| && ErrorFromLine(e, lines[e.loc.line - 1])
    ensures e.loc.section == LastSection(evs)
  {
  }

  /** The invariant of a failed scan. */
  lemma FailedScanFacts(lines: seq<string>)
    requires Scan(lines).Failed?
    ensures FailedFacts(lines, Scan(lines).events, Scan(lines).err)
  {
    ScanConsistent(lines);
  }

  lemma FailedStays(lines: seq<string>, more: seq<string>)
    requires ScanAll(lines).Fail?
    ensures ScanAll(lines + more) == ScanAll(lines)
  {
    var lm := lines + more;
    assert lm[..|lines|] == lines;
    ScanExtends(lm, |lines|);
  }

  /** An input of blank lines releases nothing. */
  lemma {:induction false} BlankInput(lines: seq<string>)
    requires forall i :: 0 <= i < |lines| ==> AllSpace(lines[i])
    ensures Scan(lines) == Running([], Initial.(loc := Location(|lines|, "")))
    ensures ScanAll(lines) == Ok([])
  {
    if lines != [] {
      BlankInput(lines[..|lines| - 1]);
    }
  }

  /** A handler with no callbacks receives every event and never changes
      the outcome. */
  lemma NilHandlerSeesAll(r: Scanned)
    ensures Observe(NilHandler, r) == Parsed(r.events, if r.Ok? then Success else SyntaxFailure(r.err))
  {
  }

  /** A trimmed line that is neither a comment nor a header and has no
      '=': a bare key. */
  predicate BareKeyText(k: string) {
    k != [] && TrimSpace(k) == k && k[0] != ';' && k[0] != '[' && '=' !in k
  }

  /** A bare key, the key followed by '=', and the key followed by " =" give
      the same whole stream when the key line ends the input and the key is
      not the one already pending: each releases the pending group and then
      the key with the single value "" at that line. */
  lemma BareKeyEquivalence(pre: seq<string>, k: string)
    requires Scan(pre).Running? && CleanKey(k) != Scan(pre).st.curKey
    requires BareKeyText(k)
    ensures ScanAll(pre + [k]) == ScanAll(pre + [k + "="])
    ensures ScanAll(pre + [k + " ="]) == ScanAll(pre + [k])
    ensures var st := Scan(pre).st;
      ScanAll(pre + [k]) == Ok(Scan(pre).events + Pending(st) + [KeyValue(st.loc.(line := st.loc.line + 1), CleanKey(k), [""])])
  {
    BareKeyScan(pre, k);
    KeyEqualsScan(pre, k, "=");
    KeyEqualsScan(pre, k, " =");
  }

  /** The whole stream after a bare key. */
  lemma BareKeyScan(pre: seq<string>, k: string)
    requires Scan(pre).Running? && BareKeyText(k)
    ensures var st := Scan(pre).st;
      ScanAll(pre + [k]) == Ok(Scan(pre).events + Pending(st) + [KeyValue(st.loc.(line := st.loc.line + 1), CleanKey(k), [""])])
  {
    var st := Scan(pre).st;
    var evs := Scan(pre).events;
    var loc := st.loc.(line := st.loc.line + 1);
    var kv := KeyValue(loc, CleanKey(k), [""]);
    StepBareKey(st, k);
    ScanAllOneMore(pre, k, evs, st, Pending(st) + [kv], Cleared(st).(loc := loc));
    FlushOne(evs, Pending(st), kv);
  }

  /** The whole stream after the key followed by '=' or by " =". */
  lemma KeyEqualsScan(pre: seq<string>, k: string, eq: string)
    requires Scan(pre).Running? && CleanKey(k) != Scan(pre).st.curKey
    requires BareKeyText(k) && (eq == "=" || eq == " =")
    ensures var st := Scan(pre).st;
      ScanAll(pre + [k + eq]) == Ok(Scan(pre).events + Pending(st) + [KeyValue(st.loc.(line := st.loc.line + 1), CleanKey(k), [""])])
  {
    BareKeyShape(k);
    StepKeyEquals(Scan(pre).st, k, eq);
    ScanAfterBegin(pre, k + eq, CleanKey(k));
  }

  /** The whole stream after a line that begins a key with the single value
      "". */
  lemma ScanAfterBegin(pre: seq<string>, t: string, key: string)
    requires Scan(pre).Running? && key != ""
    requires var st := Scan(pre).st; var loc := st.loc.(line := st.loc.line + 1);
      Step(st, t) == Next(Pending(st), ScanState(loc, loc, key, [""]))
    ensures var st := Scan(pre).st;
      ScanAll(pre + [t]) == Ok(Scan(pre).events + Pending(st) + [KeyValue(st.loc.(line := st.loc.line + 1), key, [""])])
  {
    var st := Scan(pre).st;
    var loc := st.loc.(line := st.loc.line + 1);
    ScanAllOneMore(pre, t, Scan(pre).events, st, Pending(st), ScanState(loc, loc, key, [""]));
  }

  /** The whole stream after one more line a running scan accepts. */
  lemma ScanAllOneMore(pre: seq<string>, t: string, evs: seq<Event>, st: ScanState, out: seq<Event>, st': ScanState)
    requires Scan(pre) == Running(evs, st) && Step(st, t) == Next(out, st')
    ensures ScanAll(pre + [t]) == Ok(evs + out + Pending(st'))
  {
    ScanOneMore(pre, t);
  }

  lemma FlushOne(evs: seq<Event>, p: seq<Event>, kv: Event)
    ensures evs + (p + [kv]) + [] == evs + p + [kv]
  {
  }

  /** A bare key is not indented and normalises to a non-empty key. */
  lemma BareKeyShape(k: string)
    requires BareKeyText(k)
    ensures !IsIndented(k) && CleanKey(k) != ""
  {
    assert !IsSpace(k[0]);
  }

  /** A bare key releases the pending group and then the key with the single
      value "". */
  lemma StepBareKey(st: ScanState, k: string)
    requires BareKeyText(k)
    ensures var loc := st.loc.(line := st.loc.line + 1);
      Step(st, k) == Next(Pending(st) + [KeyValue(loc, CleanKey(k), [""])], Cleared(st).(loc := loc))
  {
    BareKeyShape(k);
  }

  /** The key followed by '=' or by " =" releases the pending group and
      begins the key with the single value "". */
  lemma StepKeyEquals(st: ScanState, k: string, eq: string)
    requires BareKeyText(k) && CleanKey(k) != st.curKey
    requires eq == "=" || eq == " ="
    ensures var loc := st.loc.(line := st.loc.line + 1);
      Step(st, k + eq) == Next(Pending(st), ScanState(loc, loc, CleanKey(k), [""]))
  {
    var j := EqualsAt(k, eq);
    BeginsEmpty(st, k + eq, j, CleanKey(k));
  }

  /** The text facts `BeginsEmpty` needs of the key followed by '=' or by
      " =": `j` is where the '=' is. */
  lemma EqualsAt(k: string, eq: string) returns (j: nat)
    requires BareKeyText(k) && (eq == "=" || eq == " =")
    ensures var t := k + eq;
      && TrimSpace(t) == t && t != [] && t[0] != ';' && t[0] != '['
      && IndexOf(t, '=') == j && j + 1 == |t|
      && CleanKey(t[..j]) == CleanKey(k) && CleanKey(k) != ""
  {
    if eq == "=" {
      KeyEqualsText(k);
      j := |k|;
    } else {
      KeySpaceEqualsText(k);
      j := |k| + 1;
    }
  }

  /** A trimmed line whose only '=' is its last character begins the key
      on its left with the single value "", unless that key is pending. */
  lemma BeginsEmpty(st: ScanState, t: string, j: nat, key: string)
    requires TrimSpace(t) == t && t != [] && t[0] != ';' && t[0] != '['
    requires IndexOf(t, '=') == j && j + 1 == |t|
    requires CleanKey(t[..j]) == key && key != "" && key != st.curKey
    ensures var loc := st.loc.(line := st.loc.line + 1);
      Step(st, t) == Next(Pending(st), ScanState(loc, loc, key, [""]))
  {
    StepPair(st, t);
    assert t[j + 1..] == [];
  }

  lemma KeyEqualsText(k: string)
    requires BareKeyText(k)
    ensures var t := k + "=";
      && TrimSpace(t) == t && IndexOf(t, '=') == |k|
      && t[..|k|] == k && CleanKey(k) != ""
  {
    var t := k + "=";
    BareKeyShape(k);
    assert !IsSpace(t[0]) && t[|t| - 1] == '=';
    TrimSpaceOf(t, 0, |t|);
    assert t[..|t|] == t && t[..|k|] == k && t[|k| + 1..] == [];
    assert IndexOf(t, '=') == |k|;
  }

  lemma KeySpaceEqualsText(k: string)
    requires BareKeyText(k)
    ensures var t := k + " =";
      && TrimSpace(t) == t && IndexOf(t, '=') == |k| + 1
      && CleanKey(t[..|k| + 1]) == CleanKey(k) && CleanKey(k) != ""
  {
    var t := k + " =";
    BareKeyShape(k);
    assert !IsSpace(t[0]) && t[|t| - 1] == '=';
    TrimSpaceOf(t, 0, |t|);
    assert t[..|t|] == t && t[..|k| + 1] == k + [' '] && t[|k| + 2..] == [];
    assert IndexOf(t, '=') == |k| + 1;
    CleanKeyAppendSpace(k, ' ');
  }

  lemma ScanOneMore(pre: seq<string>, t: string)
    ensures Scan(pre + [t]) == Advance(Scan(pre), t)
  {
    assert (pre + [t])[..|pre|] == pre;
  }

  // ---------------------------------------------------------------------
  // An empty value only ever stands alone

  /** A value list with more than one value holds no empty value. */
  predicate NoEmptyAmongMany(vs: seq<string>) {
    |vs| > 1 ==> "" !in vs
  }

  /** Every key/value event of `evs` has a value list of that kind. */
  predicate EventsNoEmptyAmongMany(evs: seq<Event>) {
    forall k :: 0 <= k < |evs| && evs[k].KeyValue? ==> NoEmptyAmongMany(evs[k].values)
  }

  /** A `key=value` line for the key already pending. */
  predicate RepeatsPending(st: ScanState, text: string) {
    var c := TrimSpace(text);
    && c != [] && c[0] != ';' && c[0] != '[' && '=' in c
    && st.curKey != "" && CleanKey(c[..IndexOf(c, '=')]) == st.curKey
  }

  /** No line of the input is a `key=value` line for the key pending
      before it. */
  predicate NoRepeatedPending(lines: seq<string>) {
    forall i :: 0 <= i < |lines| && Scan(lines[..i]).Running? ==> !RepeatsPending(Scan(lines[..i]).st, lines[i])
  }

  /** What a non-stopping step keeps: the pending values and the released
      events have no empty value among several. */
  predicate KeepsNoEmptyAmongMany(r: StepResult) {
    r.Next? ==> NoEmptyAmongMany(r.st.values) && EventsNoEmptyAmongMany(r.out)
  }

  /** Every line other than a repeat of the pending key keeps the pending
      values free of an empty value among several, and releases only such
      events. */
  lemma StepNoEmptyAmongMany(st: ScanState, text: string)
    requires NoEmptyAmongMany(st.values) && !RepeatsPending(st, text)
    ensures KeepsNoEmptyAmongMany(Step(st, text))
  {
    var c := TrimSpace(text);
    if c == "" || c[0] == ';' {
      CommentNoEmpty(st, text);
    } else if c[0] == '[' {
      HeaderStepNoEmpty(st, text);
    } else if '=' !in c {
      NoEqualsStepNoEmpty(st, text);
    } else {
      PairStepNoEmpty(st, text);
    }
  }

  lemma CommentNoEmpty(st: ScanState, text: string)
    requires var c := TrimSpace(text); c == "" || c[0] == ';'
    requires NoEmptyAmongMany(st.values)
    ensures KeepsNoEmptyAmongMany(Step(st, text))
  {
    if TrimSpace(text) != "" {
      ReleaseNoEmpty(st, Comment(st.loc.(line := st.loc.line + 1), text));
    }
  }

  lemma HeaderStepNoEmpty(st: ScanState, text: string)
    requires var c := TrimSpace(text); c != "" && c[0] == '['
    requires NoEmptyAmongMany(st.values)
    ensures KeepsNoEmptyAmongMany(Step(st, text))
  {
    var loc := st.loc.(line := st.loc.line + 1);
    var c := TrimSpace(text);
    assert Step(st, text) == HeaderLine(st, loc, c);
    HeaderNoEmpty(st, loc, c);
  }

  lemma NoEqualsStepNoEmpty(st: ScanState, text: string)
    requires var c := TrimSpace(text); c != "" && c[0] != ';' && c[0] != '[' && '=' !in c
    requires NoEmptyAmongMany(st.values)
    ensures KeepsNoEmptyAmongMany(Step(st, text))
  {
    var loc := st.loc.(line := st.loc.line + 1);
    var c := TrimSpace(text);
    assert Step(st, text) == NoEqualsLine(st, loc, c, IsIndented(text));
    NoEqualsNoEmpty(st, loc, c, IsIndented(text));
  }

  lemma PairStepNoEmpty(st: ScanState, text: string)
    requires var c := TrimSpace(text); c != "" && c[0] != ';' && c[0] != '[' && '=' in c
    requires NoEmptyAmongMany(st.values) && !RepeatsPending(st, text)
    ensures KeepsNoEmptyAmongMany(Step(st, text))
  {
    var c := TrimSpace(text);
    var i := IndexOf(c, '=');
    StepPair(st, text);
    PairNoEmpty(st, st.loc.(line := st.loc.line + 1), c, i);
  }

  /** Releasing the pending group and then an event that is not a key with
      several values among which one is empty. */
  lemma ReleaseNoEmpty(st: ScanState, e: Event)
    requires NoEmptyAmongMany(st.values)
    requires e.KeyValue? ==> NoEmptyAmongMany(e.values)
    ensures EventsNoEmptyAmongMany(Pending(st) + [e])
  {
  }

  lemma HeaderNoEmpty(st: ScanState, loc: Location, c: string)
    requires c != [] && c[0] == '['
    requires NoEmptyAmongMany(st.values)
    ensures KeepsNoEmptyAmongMany(HeaderLine(st, loc, c))
  {
    if HeaderLine(st, loc, c).Next? {
      ReleaseNoEmpty(st, Section(loc, CleanKey(c[1..|c| - 1])));
    }
  }

  lemma NoEqualsNoEmpty(st: ScanState, loc: Location, c: string, indented: bool)
    requires c != [] && NoEmptyAmongMany(st.values)
    ensures KeepsNoEmptyAmongMany(NoEqualsLine(st, loc, c, indented))
  {
    if indented && st.curKey != "" {
      assert !(|st.values| == 1 && st.values[0] == "") ==> "" !in st.values;
    } else {
      ReleaseNoEmpty(st, KeyValue(loc, CleanKey(c), [""]));
    }
  }

  lemma PairNoEmpty(st: ScanState, loc: Location, c: string, i: nat)
    requires i < |c| && NoEmptyAmongMany(st.values)
    requires st.curKey == "" || CleanKey(c[..i]) != st.curKey
    ensures KeepsNoEmptyAmongMany(PairLine(st, loc, c, i))
  {
  }

  /** When no line repeats the pending key, every key with several values
      has no empty value among them, so "" only ever occurs as the single
      value of a key. */
  lemma {:induction false} ScanNoEmptyAmongMany(lines: seq<string>)
    requires NoRepeatedPending(lines)
    ensures EventsNoEmptyAmongMany(Scan(lines).events)
    ensures Scan(lines).Running? ==> NoEmptyAmongMany(Scan(lines).st.values)
  {
    if lines != [] {
      var init := lines[..|lines| - 1];
      var text := lines[|lines| - 1];
      assert NoRepeatedPending(init) by {
        forall i | 0 <= i < |init| && Scan(init[..i]).Running?
          ensures !RepeatsPending(Scan(init[..i]).st, init[i])
        {
          assert init[..i] == lines[..i];
        }
      }
      ScanNoEmptyAmongMany(init);
      match Scan(init)
      case Failed(_, _) =>
      case Running(evs, st) =>
        assert lines[..|init|] == init;
        StepNoEmptyAmongMany(st, text);
        if Step(st, text).Next? {
          EventsConcat(evs, Step(st, text).out);
        }
    }
  }

  lemma EventsConcat(a: seq<Event>, b: seq<Event>)
    requires EventsNoEmptyAmongMany(a) && EventsNoEmptyAmongMany(b)
    ensures EventsNoEmptyAmongMany(a + b)
  {
    assert forall k :: |a| <= k < |a + b| ==> (a + b)[k] == b[k - |a|];
  }

  /** The whole stream, with the final flush: no key/value event has an
      empty value among several values. */
  lemma MultiValueNoEmpty(lines: seq<string>)
    requires NoRepeatedPending(lines)
    ensures forall k :: 0 <= k < |ScanAll(lines).events| && ScanAll(lines).events[k].KeyValue? ==>
      |ScanAll(lines).events[k].values| > 1 ==> "" !in ScanAll(lines).events[k].values
  {
    ScanNoEmptyAmongMany(lines);
    match Scan(lines)
    case Failed(_, _) =>
    case Running(evs, st) =>
      EventsConcat(evs, Pending(st));
  }
}
