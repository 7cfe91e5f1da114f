/** Inputs from ini_test.go and the event streams the scanner gives for
    them, worked out from the definitions.  Each input is given as its list
    of lines, as a line scanner splits it: no final empty line after a
    trailing newline.

    The proofs go in three layers, so that no single proof has to evaluate
    the scanner on literal text: facts about the literal text of one line
    (what it trims, splits and normalises to), the step a line of that
    kind takes from a state given field by field, and the scan of the
    whole input put together from its steps. */
module IniExamples {
  import opened Text
  import opened Ini
  import opened IniProperties

  // ---------------------------------------------------------------------
  // Kinds of line

  /** A comment line. */
  predicate CommentText(text: string) {
    var c := TrimSpace(text);
    c != [] && c[0] == ';'
  }

  /** A well-formed header naming section `name`. */
  predicate HeaderText(text: string, name: string) {
    var c := TrimSpace(text);
    && |c| >= 2 && c[0] == '[' && c[|c| - 1] == ']'
    && CleanKey(c[1..|c| - 1]) == name && name != "" && !ContainsAny(name, "[]")
  }

  /** A `key=value` line: its trimmed text splits at the first '=' into a
      key that normalises to `key` and a value that trims to `value`. */
  predicate PairText(text: string, key: string, value: string) {
    var c := TrimSpace(text);
    var i := IndexOf(c, '=');
    && c != [] && c[0] != ';' && c[0] != '[' && 0 <= i
    && CleanKey(c[..i]) == key && key != "" && TrimSpace(c[i + 1..]) == value
  }

  /** A line without '=' that is neither a comment nor a header; trimmed,
      it is `c`. */
  predicate PlainText(text: string, c: string) {
    && TrimSpace(text) == c
    && c != [] && c[0] != ';' && c[0] != '[' && IndexOf(c, '=') < 0
  }

  /** An unindented plain line: a bare key that normalises to `key`. */
  predicate BareText(text: string, key: string) {
    PlainText(text, TrimSpace(text)) && !IsIndented(text) && CleanKey(TrimSpace(text)) == key
  }

  /** An indented plain line: a continuation value `c`. */
  predicate MoreText(text: string, c: string) {
    PlainText(text, c) && IsIndented(text)
  }

  /** The normalised form of a single word between whitespace. */
  lemma CleanWord(sp: string, w: string, rest: string)
    requires AllSpace(sp) && IsWord(w) && AllSpace(rest)
    ensures CleanKey(sp + w + rest) == w
  {
    FieldsOfSpaced(sp, w, rest);
  }

  // ---------------------------------------------------------------------
  // One step from any state

  lemma CommentStep(st: ScanState, text: string)
    requires CommentText(text)
    ensures var loc := st.loc.(line := st.loc.line + 1);
      Step(st, text) == Next(Pending(st) + [Comment(loc, text)], Cleared(st).(loc := loc))
  {
  }

  lemma HeaderStep(st: ScanState, text: string, name: string)
    requires HeaderText(text, name)
    ensures var loc := st.loc.(line := st.loc.line + 1);
      Step(st, text) == Next(Pending(st) + [Section(loc, name)], Cleared(st).(loc := loc.(section := name)))
  {
    var c := TrimSpace(text);
    assert Step(st, text) == HeaderLine(st, st.loc.(line := st.loc.line + 1), c);
  }

  lemma PairStep(st: ScanState, text: string, key: string, value: string)
    requires PairText(text, key, value) && key != st.curKey
    ensures var loc := st.loc.(line := st.loc.line + 1);
      Step(st, text) == Next(Pending(st), ScanState(loc, loc, key, [value]))
  {
    KeyValueLine(st, text);
  }

  lemma BareStep(st: ScanState, text: string, key: string)
    requires BareText(text, key)
    ensures var loc := st.loc.(line := st.loc.line + 1);
      Step(st, text) == Next(Pending(st) + [KeyValue(loc, key, [""])], Cleared(st).(loc := loc))
  {
    BareKey(st, text);
  }

  lemma MoreStep(st: ScanState, text: string, c: string)
    requires MoreText(text, c) && st.curKey != ""
    ensures var loc := st.loc.(line := st.loc.line + 1);
      Step(st, text) == Next([], st.(loc := loc, values := if st.values == [""] then [c] else st.values + [c]))
  {
    Continuation(st, text);
  }

  // Small facts about states given field by field.

  lemma NextLine(st: ScanState, n: nat, m: nat, sec: string)
    requires st.loc == Location(n, sec) && m == n + 1
    ensures st.loc.(line := st.loc.line + 1) == Location(m, sec)
  {
  }

  lemma NothingPending(st: ScanState)
    requires st.curKey == ""
    ensures Pending(st) == []
  {
  }

  lemma SomethingPending(st: ScanState)
    requires st.curKey != ""
    ensures Pending(st) == [KeyValue(st.keyLoc, st.curKey, st.values)]
  {
  }

  lemma ClearedAt(st: ScanState, loc: Location)
    ensures Cleared(st).(loc := loc) == ScanState(loc, st.keyLoc, "", [])
  {
  }

  // ---------------------------------------------------------------------
  // One step from a state given field by field: the forms the examples use

  lemma BlankAt(n: nat, m: nat, sec: string, kl: Location, k: string, vs: seq<string>, text: string)
    requires AllSpace(text) && m == n + 1
    ensures Step(ScanState(Location(n, sec), kl, k, vs), text) == Next([], ScanState(Location(m, sec), kl, k, vs))
  {
    var st := ScanState(Location(n, sec), kl, k, vs);
    BlankLine(st, text);
    NextLine(st, n, m, sec);
  }

  lemma CommentAt(n: nat, m: nat, sec: string, kl: Location, vs: seq<string>, text: string)
    requires CommentText(text) && m == n + 1
    ensures Step(ScanState(Location(n, sec), kl, "", vs), text) ==
      Next([Comment(Location(m, sec), text)], ScanState(Location(m, sec), kl, "", []))
  {
    var st := ScanState(Location(n, sec), kl, "", vs);
    CommentStep(st, text);
    NextLine(st, n, m, sec);
    NothingPending(st);
    ClearedAt(st, Location(m, sec));
  }

  lemma HeaderAt(n: nat, m: nat, sec: string, kl: Location, vs: seq<string>, text: string, name: string)
    requires HeaderText(text, name) && m == n + 1
    ensures Step(ScanState(Location(n, sec), kl, "", vs), text) ==
      Next([Section(Location(m, sec), name)], ScanState(Location(m, name), kl, "", []))
  {
    var st := ScanState(Location(n, sec), kl, "", vs);
    HeaderStep(st, text, name);
    NextLine(st, n, m, sec);
    NothingPending(st);
    ClearedAt(st, Location(m, name));
  }

  lemma FirstKeyAt(n: nat, m: nat, sec: string, kl: Location, vs: seq<string>, text: string, key: string, value: string)
    requires PairText(text, key, value) && m == n + 1
    ensures Step(ScanState(Location(n, sec), kl, "", vs), text) ==
      Next([], ScanState(Location(m, sec), Location(m, sec), key, [value]))
  {
    var st := ScanState(Location(n, sec), kl, "", vs);
    PairStep(st, text, key, value);
    NextLine(st, n, m, sec);
    NothingPending(st);
  }

  lemma NextKeyAt(n: nat, m: nat, sec: string, kl: Location, k: string, vs: seq<string>, text: string, key: string, value: string)
    requires PairText(text, key, value) && k != "" && k != key && m == n + 1
    ensures Step(ScanState(Location(n, sec), kl, k, vs), text) ==
      Next([KeyValue(kl, k, vs)], ScanState(Location(m, sec), Location(m, sec), key, [value]))
  {
    var st := ScanState(Location(n, sec), kl, k, vs);
    PairStep(st, text, key, value);
    NextLine(st, n, m, sec);
    SomethingPending(st);
  }

  lemma FirstBareAt(n: nat, m: nat, sec: string, kl: Location, vs: seq<string>, text: string, key: string)
    requires BareText(text, key) && m == n + 1
    ensures Step(ScanState(Location(n, sec), kl, "", vs), text) ==
      Next([KeyValue(Location(m, sec), key, [""])], ScanState(Location(m, sec), kl, "", []))
  {
    var st := ScanState(Location(n, sec), kl, "", vs);
    BareStep(st, text, key);
    NextLine(st, n, m, sec);
    NothingPending(st);
    ClearedAt(st, Location(m, sec));
  }

  lemma NextBareAt(n: nat, m: nat, sec: string, kl: Location, k: string, vs: seq<string>, text: string, key: string)
    requires BareText(text, key) && k != "" && m == n + 1
    ensures Step(ScanState(Location(n, sec), kl, k, vs), text) ==
      Next([KeyValue(kl, k, vs), KeyValue(Location(m, sec), key, [""])], ScanState(Location(m, sec), kl, "", []))
  {
    var st := ScanState(Location(n, sec), kl, k, vs);
    BareStep(st, text, key);
    NextLine(st, n, m, sec);
    SomethingPending(st);
    ClearedAt(st, Location(m, sec));
  }

  lemma FirstValueAt(n: nat, m: nat, sec: string, kl: Location, k: string, text: string, c: string)
    requires MoreText(text, c) && k != "" && m == n + 1
    ensures Step(ScanState(Location(n, sec), kl, k, [""]), text) == Next([], ScanState(Location(m, sec), kl, k, [c]))
  {
    var st := ScanState(Location(n, sec), kl, k, [""]);
    MoreStep(st, text, c);
    NextLine(st, n, m, sec);
  }

  lemma NextValueAt(n: nat, m: nat, sec: string, kl: Location, k: string, vs: seq<string>, vs': seq<string>, text: string, c: string)
    requires MoreText(text, c) && k != "" && vs != [""] && vs' == vs + [c] && m == n + 1
    ensures Step(ScanState(Location(n, sec), kl, k, vs), text) == Next([], ScanState(Location(m, sec), kl, k, vs'))
  {
    var st := ScanState(Location(n, sec), kl, k, vs);
    MoreStep(st, text, c);
    NextLine(st, n, m, sec);
  }

  lemma SameKeyAt(n: nat, m: nat, sec: string, kl: Location, k: string, vs: seq<string>, vs': seq<string>, text: string, value: string)
    requires PairText(text, k, value) && vs' == vs + [value] && m == n + 1
    ensures Step(ScanState(Location(n, sec), kl, k, vs), text) == Next([], ScanState(Location(m, sec), kl, k, vs'))
  {
    var st := ScanState(Location(n, sec), kl, k, vs);
    KeyValueLine(st, text);
    NextLine(st, n, m, sec);
  }

  lemma ErrorAt(n: nat, m: nat, sec: string, kl: Location, k: string, vs: seq<string>, text: string, e: SyntaxError)
    requires ErrorFromLine(e, text) && e.loc == Location(m, sec) && m == n + 1
    ensures Step(ScanState(Location(n, sec), kl, k, vs), text) == Stop(e)
  {
    var st := ScanState(Location(n, sec), kl, k, vs);
    NextLine(st, n, m, sec);
    BadLineStops(st, text, e);
  }

  lemma IndentedBareAt(n: nat, m: nat, sec: string, kl: Location, vs: seq<string>, text: string, c: string, key: string)
    requires MoreText(text, c) && CleanKey(c) == key && m == n + 1
    ensures Step(ScanState(Location(n, sec), kl, "", vs), text) ==
      Next([KeyValue(Location(m, sec), key, [""])], ScanState(Location(m, sec), kl, "", []))
  {
    var st := ScanState(Location(n, sec), kl, "", vs);
    BareKey(st, text);
    NextLine(st, n, m, sec);
    NothingPending(st);
  }

  // ---------------------------------------------------------------------
  // Putting a scan together from its steps

  lemma Scan1(l1: string, out: seq<Event>, st: ScanState)
    requires Step(ScanState(Location(0, ""), Location(0, ""), "", []), l1) == Next(out, st)
    ensures Scan([l1]) == Running(out, st)
  {
    assert [l1][..0] == [];
  }

  lemma Scan2(l1: string, l2: string, evs: seq<Event>, st: ScanState, out: seq<Event>, st': ScanState, evs': seq<Event>)
    requires Scan([l1]) == Running(evs, st) && Step(st, l2) == Next(out, st') && evs' == evs + out
    ensures Scan([l1, l2]) == Running(evs', st')
  {
    assert [l1, l2][..1] == [l1];
  }

  lemma Scan3(l1: string, l2: string, l3: string, evs: seq<Event>, st: ScanState, out: seq<Event>, st': ScanState, evs': seq<Event>)
    requires Scan([l1, l2]) == Running(evs, st) && Step(st, l3) == Next(out, st') && evs' == evs + out
    ensures Scan([l1, l2, l3]) == Running(evs', st')
  {
    assert [l1, l2, l3][..2] == [l1, l2];
  }

  lemma Scan4(l1: string, l2: string, l3: string, l4: string, evs: seq<Event>, st: ScanState, out: seq<Event>, st': ScanState, evs': seq<Event>)
    requires Scan([l1, l2, l3]) == Running(evs, st) && Step(st, l4) == Next(out, st') && evs' == evs + out
    ensures Scan([l1, l2, l3, l4]) == Running(evs', st')
  {
    assert [l1, l2, l3, l4][..3] == [l1, l2, l3];
  }

  lemma Scan5(l1: string, l2: string, l3: string, l4: string, l5: string,
              evs: seq<Event>, st: ScanState, out: seq<Event>, st': ScanState, evs': seq<Event>)
    requires Scan([l1, l2, l3, l4]) == Running(evs, st) && Step(st, l5) == Next(out, st') && evs' == evs + out
    ensures Scan([l1, l2, l3, l4, l5]) == Running(evs', st')
  {
    assert [l1, l2, l3, l4, l5][..4] == [l1, l2, l3, l4];
  }

  lemma Stop1(l1: string, e: SyntaxError)
    requires Step(ScanState(Location(0, ""), Location(0, ""), "", []), l1) == Stop(e)
    ensures ScanAll([l1]) == Fail([], e)
  {
    assert [l1][..0] == [];
    assert Scan([l1]) == Failed([], e);
  }

  lemma FinishClear(lines: seq<string>, evs: seq<Event>, n: nat, sec: string, kl: Location)
    requires Scan(lines) == Running(evs, ScanState(Location(n, sec), kl, "", []))
    ensures ScanAll(lines) == Ok(evs)
  {
  }

  lemma FinishKey(lines: seq<string>, evs: seq<Event>, n: nat, sec: string, kl: Location, k: string, vs: seq<string>, all: seq<Event>)
    requires Scan(lines) == Running(evs, ScanState(Location(n, sec), kl, k, vs)) && k != ""
    requires all == evs + [KeyValue(kl, k, vs)]
    ensures ScanAll(lines) == Ok(all)
  {
  }

  // Sequences built one piece at a time, in the display forms used above.

  lemma NoneBefore<T>(xs: seq<T>) ensures [] + xs == xs { }
  lemma NoneAfter<T>(xs: seq<T>) ensures xs + [] == xs { }
  lemma OneOne<T>(a: T, b: T) ensures [a] + [b] == [a, b] { }
  lemma TwoOne<T>(a: T, b: T, c: T) ensures [a, b] + [c] == [a, b, c] { }
  lemma OneTwo<T>(a: T, b: T, c: T) ensures [a] + [b, c] == [a, b, c] { }
  lemma ThreeOne<T>(a: T, b: T, c: T, d: T) ensures [a, b, c] + [d] == [a, b, c, d] { }

  // ---------------------------------------------------------------------
  // "single keys" (ini_test.go:58-61)

  lemma SingleKeysA1() ensures TrimSpace(" a = 45 ") == "a = 45" { TrimSpaceOf(" a = 45 ", 1, 7); }
  lemma SingleKeysA2() ensures IndexOf("a = 45", '=') == 2 { }
  lemma SingleKeysA3() ensures CleanKey("a = 45"[..2]) == "a" { assert "a = 45"[..2] == "" + "a" + " "; CleanWord("", "a", " "); }
  lemma SingleKeysA4() ensures TrimSpace("a = 45"[3..]) == "45" { assert "a = 45"[3..] == " 45"; TrimSpaceOf(" 45", 1, 3); }
  lemma SingleKeysA() ensures PairText(" a = 45 ", "a", "45") { SingleKeysA1(); SingleKeysA2(); SingleKeysA3(); SingleKeysA4(); }

  lemma SingleKeysB1() ensures TrimSpace("b = 29") == "b = 29" { TrimSpaceOf("b = 29", 0, 6); }
  lemma SingleKeysB2() ensures IndexOf("b = 29", '=') == 2 { }
  lemma SingleKeysB3() ensures CleanKey("b = 29"[..2]) == "b" { assert "b = 29"[..2] == "" + "b" + " "; CleanWord("", "b", " "); }
  lemma SingleKeysB4() ensures TrimSpace("b = 29"[3..]) == "29" { assert "b = 29"[3..] == " 29"; TrimSpaceOf(" 29", 1, 3); }
  lemma SingleKeysB() ensures PairText("b = 29", "b", "29") { SingleKeysB1(); SingleKeysB2(); SingleKeysB3(); SingleKeysB4(); }

  lemma SingleKeys1()
    ensures Scan([" a = 45 "]) == Running([], ScanState(Location(1, ""), Location(1, ""), "a", ["45"]))
  {
    SingleKeysA();
    FirstKeyAt(0, 1, "", Location(0, ""), [], " a = 45 ", "a", "45");
    Scan1(" a = 45 ", [], ScanState(Location(1, ""), Location(1, ""), "a", ["45"]));
  }

  lemma SingleKeys2()
    ensures Scan([" a = 45 ", "b = 29"]) ==
      Running([KeyValue(Location(1, ""), "a", ["45"])], ScanState(Location(2, ""), Location(2, ""), "b", ["29"]))
  {
    SingleKeysB();
    SingleKeys1();
    NextKeyAt(1, 2, "", Location(1, ""), "a", ["45"], "b = 29", "b", "29");
    NoneBefore([KeyValue(Location(1, ""), "a", ["45"])]);
    Scan2(" a = 45 ", "b = 29", [], ScanState(Location(1, ""), Location(1, ""), "a", ["45"]),
      [KeyValue(Location(1, ""), "a", ["45"])], ScanState(Location(2, ""), Location(2, ""), "b", ["29"]),
      [KeyValue(Location(1, ""), "a", ["45"])]);
  }

  /** Two `key=value` lines for different keys give one event each, at their
      own lines, with keys and values trimmed. */
  lemma SingleKeys()
    ensures ScanAll([" a = 45 ", "b = 29"]) ==
      Ok([KeyValue(Location(1, ""), "a", ["45"]), KeyValue(Location(2, ""), "b", ["29"])])
  {
    SingleKeys2();
    OneOne(KeyValue(Location(1, ""), "a", ["45"]), KeyValue(Location(2, ""), "b", ["29"]));
    FinishKey([" a = 45 ", "b = 29"], [KeyValue(Location(1, ""), "a", ["45"])], 2, "", Location(2, ""), "b", ["29"],
      [KeyValue(Location(1, ""), "a", ["45"]), KeyValue(Location(2, ""), "b", ["29"])]);
  }

  // ---------------------------------------------------------------------
  // Lines made of single characters

  /** Whitespace, then a run that starts and ends with non-space
      characters, then whitespace: trimming keeps exactly the run. */
  lemma TrimAround(text: string, sp1: string, f: char, mid: string, l: char, sp2: string)
    requires text == sp1 + ([f] + mid + [l]) + sp2
    requires AllSpace(sp1) && AllSpace(sp2) && !IsSpace(f) && !IsSpace(l)
    ensures TrimSpace(text) == [f] + mid + [l]
  {
    var a, b := |sp1|, |sp1| + |mid| + 2;
    assert text[a] == f && text[b - 1] == l;
    assert forall i :: 0 <= i < a ==> text[i] == sp1[i];
    assert forall i :: b <= i < |text| ==> text[i] == sp2[i - b];
    TrimSpaceOf(text, a, b);
    assert text[a..b] == [f] + mid + [l];
  }

  /** A printable character that is none of the scanner's punctuation. */
  predicate Letter(ch: char) {
    !IsSpace(ch) && ch != ';' && ch != '[' && ch != ']' && ch != '='
  }

  lemma LetterTrim(ch: char)
    requires !IsSpace(ch)
    ensures TrimSpace([ch]) == [ch]
  {
    TrimSpaceOf([ch], 0, 1);
  }

  lemma LetterKey(ch: char)
    requires !IsSpace(ch)
    ensures CleanKey([ch]) == [ch]
  {
    assert [] + [ch] + [] == [ch];
    CleanWord([], [ch], []);
  }

  lemma LetterWord(ch: char)
    requires Letter(ch)
    ensures TrimSpace([ch]) == [ch] && CleanKey([ch]) == [ch] && IndexOf([ch], '=') < 0
  {
    LetterTrim(ch);
    LetterKey(ch);
  }

  lemma BareLetter(ch: char)
    requires Letter(ch)
    ensures BareText([ch], [ch])
  {
    LetterWord(ch);
  }

  lemma MoreLetter(ch: char)
    requires Letter(ch)
    ensures MoreText([' ', ch], [ch])
  {
    TrimSpaceOf([' ', ch], 1, 2);
    assert [' ', ch][1..2] == [ch];
  }

  lemma PairEmptyValue(k: char)
    requires Letter(k)
    ensures PairText([k, '='], [k], "")
  {
    TrimSpaceOf([k, '='], 0, 2);
    assert [k, '='][..1] == [k] && [k, '='][2..] == [];
    LetterKey(k);
  }

  lemma PairLetterValue(k: char, v: char)
    requires Letter(k) && Letter(v)
    ensures PairText([k, '=', v], [k], [v])
  {
    TrimSpaceOf([k, '=', v], 0, 3);
    assert [k, '=', v][..1] == [k] && [k, '=', v][2..] == [v];
    LetterKey(k);
    LetterTrim(v);
  }

  lemma PairIndented(k: char, v: char)
    requires Letter(k) && Letter(v)
    ensures PairText([' ', k, '=', v], [k], [v])
  {
    IndentedTrim(k, v);
    PairLetterValue(k, v);
  }

  lemma IndentedTrim(k: char, v: char)
    requires Letter(k) && Letter(v)
    ensures TrimSpace([' ', k, '=', v]) == [k, '=', v]
  {
    TrimSpaceOf([' ', k, '=', v], 1, 4);
    assert [' ', k, '=', v][1..4] == [k, '=', v];
  }

  /** A header: whitespace, then `inner` in brackets, where `inner`
      normalises to `name`. */
  lemma HeaderOf(text: string, sp: string, inner: string, name: string)
    requires text == sp + ("[" + inner + "]")
    requires AllSpace(sp) && CleanKey(inner) == name && name != "" && !ContainsAny(name, "[]")
    ensures HeaderText(text, name)
  {
    HeaderTrim(sp, "[" + inner + "]");
    BracketsInner(inner);
  }

  /** A header holding one word, with whitespace on both sides. */
  lemma HeaderPaddedWord(text: string, sp: string, w: string, sp2: string)
    requires text == sp + ("[" + w + "]") + sp2
    requires AllSpace(sp) && AllSpace(sp2) && IsWord(w) && !ContainsAny(w, "[]")
    ensures HeaderText(text, w)
  {
    assert "" + w + "" == w;
    CleanWord("", w, "");
    TrimAround(text, sp, '[', w, ']', sp2);
    BracketsInner(w);
  }

  /** A line whose first piece starts with ';' is a comment. */
  lemma CommentPieces(a: string, b: string)
    requires a != [] && a[0] == ';'
    ensures CommentText(a + b)
  {
    LeadingSpaceUnique(a + b, 0);
    TrimSpaceSpan(a + b);
  }

  /** A header holding one word, after some whitespace. */
  lemma HeaderWord(text: string, sp: string, w: string)
    requires text == sp + ("[" + w + "]")
    requires AllSpace(sp) && IsWord(w) && !ContainsAny(w, "[]")
    ensures HeaderText(text, w)
  {
    assert "" + w + "" == w;
    CleanWord("", w, "");
    HeaderOf(text, sp, w, w);
  }

  lemma HeaderTrim(sp: string, c: string)
    requires AllSpace(sp) && |c| >= 2 && c[0] == '[' && c[|c| - 1] == ']'
    ensures TrimSpace(sp + c) == c
  {
    var t := sp + c;
    assert forall i :: 0 <= i < |sp| ==> t[i] == sp[i];
    TrimSpaceOf(t, |sp|, |t|);
    assert t[|sp|..|t|] == c;
  }

  lemma BracketsInner(w: string)
    ensures var c := "[" + w + "]"; |c| >= 2 && c[0] == '[' && c[|c| - 1] == ']' && c[1..|c| - 1] == w
  {
  }

  /** A trimmed `key=value` line given as its parts around the first '='. */
  lemma PairOf(text: string, c: string, left: string, right: string, key: string, value: string)
    requires TrimSpace(text) == c && c == left + "=" + right && '=' !in left && c[0] != ';' && c[0] != '['
    requires CleanKey(left) == key && key != "" && TrimSpace(right) == value
    ensures PairText(text, key, value)
  {
    IndexAfter(left, right);
    assert c[..|left|] == left && c[|left| + 1..] == right;
  }

  lemma IndexAfter(left: string, right: string)
    requires '=' !in left
    ensures IndexOf(left + "=" + right, '=') == |left|
  {
    var c := left + "=" + right;
    assert c[|left|] == '=' && c[..|left|] == left;
  }

  /** An indented `key = value` line with whitespace after the value,
      given as its pieces: the key is one word, and the value starts and
      ends with non-space characters. */
  lemma PairParts(text: string, sp: string, k: string, s1: string, s2: string, v: string, sp2: string)
    requires text == (sp + k + (s1 + "=" + s2)) + (v + sp2)
    requires AllSpace(sp) && AllSpace(s1) && AllSpace(s2) && AllSpace(sp2)
    requires IsWord(k) && k[0] != ';' && k[0] != '[' && '=' !in k
    requires v != [] && !IsSpace(v[0]) && !IsSpace(v[|v| - 1])
    ensures PairText(text, k, v)
  {
    var left, right := k + s1, s2 + v;
    var c := left + "=" + right;
    assert text == sp + c + sp2;
    assert c[0] == k[0] && c[|c| - 1] == v[|v| - 1];
    TrimPadded(text, sp, c, sp2);
    LeftOfEquals(k, s1);
    TrimLeading(s2, v);
    PairOf(text, c, left, right, k, v);
  }

  /** Trimming removes exactly the whitespace around a run that starts and
      ends with non-space characters. */
  lemma TrimPadded(text: string, sp: string, c: string, sp2: string)
    requires text == sp + c + sp2 && AllSpace(sp) && AllSpace(sp2)
    requires c != [] && !IsSpace(c[0]) && !IsSpace(c[|c| - 1])
    ensures TrimSpace(text) == c
  {
    var a, b := |sp|, |sp| + |c|;
    assert forall i :: 0 <= i < a ==> text[i] == sp[i];
    assert forall i :: b <= i < |text| ==> text[i] == sp2[i - b];
    assert text[a] == c[0] && text[b - 1] == c[|c| - 1];
    TrimSpaceOf(text, a, b);
    assert text[a..b] == c;
  }

  /** A word followed by whitespace normalises to the word. */
  lemma LeftOfEquals(k: string, s1: string)
    requires IsWord(k) && '=' !in k && AllSpace(s1)
    ensures '=' !in k + s1 && CleanKey(k + s1) == k
  {
    var left := k + s1;
    forall i | 0 <= i < |left| ensures left[i] != '=' {
      if i >= |k| {
        assert left[i] == s1[i - |k|];
      }
    }
    assert "" + k + s1 == left;
    CleanWord("", k, s1);
  }

  lemma TrimLeading(s2: string, v: string)
    requires AllSpace(s2) && v != [] && !IsSpace(v[0]) && !IsSpace(v[|v| - 1])
    ensures TrimSpace(s2 + v) == v
  {
    assert s2 + v == s2 + v + "";
    TrimPadded(s2 + v, s2, v, "");
  }

  /** The key of whitespace-separated words is the words joined by one
      space. */
  lemma CleanOfFields(x: string, ws: seq<string>)
    requires Fields(x) == ws
    ensures CleanKey(x) == Join(ws, " ")
  {
  }

  lemma JoinTwo(a: string, b: string)
    ensures Join([a, b], " ") == a + " " + b
  {
    assert [a, b][1..] == [b];
  }

  lemma JoinThree(a: string, b: string, c: string)
    ensures Join([a, b, c], " ") == a + " " + b + " " + c
  {
    assert [a, b, c][1..] == [b, c];
    JoinTwo(b, c);
  }

  // ---------------------------------------------------------------------
  // "empty input" and "whitespace" (ini_test.go:39-40)

  /** No lines, no events. */
  lemma EmptyInput()
    ensures ScanAll([]) == Ok([])
  {
    FinishClear([], [], 0, "", Location(0, ""));
  }

  lemma Whitespace1()
    ensures Scan(["  "]) == Running([], ScanState(Location(1, ""), Location(0, ""), "", []))
  {
    BlankAt(0, 1, "", Location(0, ""), "", [], "  ");
    Scan1("  ", [], ScanState(Location(1, ""), Location(0, ""), "", []));
  }

  /** Lines of whitespace give no events. */
  lemma Whitespace()
    ensures ScanAll(["  ", "   \t"]) == Ok([])
  {
    Whitespace1();
    BlankAt(1, 2, "", Location(0, ""), "", [], "   \t");
    NoneAfter<Event>([]);
    Scan2("  ", "   \t", [], ScanState(Location(1, ""), Location(0, ""), "", []), [],
      ScanState(Location(2, ""), Location(0, ""), "", []), []);
    FinishClear(["  ", "   \t"], [], 2, "", Location(0, ""));
  }

  // ---------------------------------------------------------------------
  // "comment" (ini_test.go:42-45)

  lemma CommentTexts()
    ensures CommentText("; blah") && CommentText(" ; blah")
  {
    TrimSpaceOf("; blah", 0, 6);
    TrimSpaceOf(" ; blah", 1, 7);
  }

  lemma Comments2()
    ensures Scan(["", "; blah"]) ==
      Running([Comment(Location(2, ""), "; blah")], ScanState(Location(2, ""), Location(0, ""), "", []))
  {
    CommentTexts();
    BlankAt(0, 1, "", Location(0, ""), "", [], "");
    Scan1("", [], ScanState(Location(1, ""), Location(0, ""), "", []));
    CommentAt(1, 2, "", Location(0, ""), [], "; blah");
    NoneBefore([Comment(Location(2, ""), "; blah")]);
    Scan2("", "; blah", [], ScanState(Location(1, ""), Location(0, ""), "", []), [Comment(Location(2, ""), "; blah")],
      ScanState(Location(2, ""), Location(0, ""), "", []), [Comment(Location(2, ""), "; blah")]);
  }

  lemma Comments3()
    ensures Scan(["", "; blah", " ; blah"]) ==
      Running([Comment(Location(2, ""), "; blah"), Comment(Location(3, ""), " ; blah")],
              ScanState(Location(3, ""), Location(0, ""), "", []))
  {
    CommentTexts();
    Comments2();
    CommentAt(2, 3, "", Location(0, ""), [], " ; blah");
    OneOne(Comment(Location(2, ""), "; blah"), Comment(Location(3, ""), " ; blah"));
    Scan3("", "; blah", " ; blah", [Comment(Location(2, ""), "; blah")], ScanState(Location(2, ""), Location(0, ""), "", []),
      [Comment(Location(3, ""), " ; blah")], ScanState(Location(3, ""), Location(0, ""), "", []),
      [Comment(Location(2, ""), "; blah"), Comment(Location(3, ""), " ; blah")]);
  }

  /** Comment lines, indented or not, give one event each at their own
      line; blank lines give none. */
  lemma Comments()
    ensures ScanAll(["", "; blah", " ; blah", ""]) ==
      Ok([Comment(Location(2, ""), "; blah"), Comment(Location(3, ""), " ; blah")])
  {
    var evs := [Comment(Location(2, ""), "; blah"), Comment(Location(3, ""), " ; blah")];
    Comments3();
    BlankAt(3, 4, "", Location(0, ""), "", [], "");
    NoneAfter(evs);
    Scan4("", "; blah", " ; blah", "", evs, ScanState(Location(3, ""), Location(0, ""), "", []), [],
      ScanState(Location(4, ""), Location(0, ""), "", []), evs);
    FinishClear(["", "; blah", " ; blah", ""], evs, 4, "", Location(0, ""));
  }

  // ---------------------------------------------------------------------
  // "section" (ini_test.go:47-51)

  lemma AlphaHeader() ensures HeaderText("[alpha]", "alpha") { HeaderWord("[alpha]", "", "alpha"); }
  lemma BravoHeader() ensures HeaderText(" [bravo]", "bravo") { HeaderWord(" [bravo]", " ", "bravo"); }

  lemma CharlieWords2() ensures Fields("\t echo ") == ["echo"] {
    assert "\t echo " == "\t " + "echo" + " ";
    FieldsOfSpaced("\t ", "echo", " ");
  }

  lemma CharlieWords3() ensures Fields("   delta\t echo ") == ["delta", "echo"] {
    assert "   delta\t echo " == "   " + "delta" + "\t echo ";
    FieldsOfSpaced("   ", "delta", "\t echo ");
    CharlieWords2();
    OneOne("delta", "echo");
  }

  lemma CharlieWords() ensures Fields(" charlie   delta\t echo ") == ["charlie", "delta", "echo"] {
    assert " charlie   delta\t echo " == " " + "charlie" + "   delta\t echo ";
    FieldsOfSpaced(" ", "charlie", "   delta\t echo ");
    CharlieWords3();
    OneTwo("charlie", "delta", "echo");
  }

  lemma CharlieJoin() ensures Join(["charlie", "delta", "echo"], " ") == "charlie delta echo" {
    JoinThree("charlie", "delta", "echo");
  }

  lemma CharlieName() ensures CleanKey(" charlie   delta\t echo ") == "charlie delta echo" {
    CharlieWords();
    CleanOfFields(" charlie   delta\t echo ", ["charlie", "delta", "echo"]);
    CharlieJoin();
  }

  lemma CharlieParts() ensures "[ charlie   delta\t echo ]" == "" + ("[" + " charlie   delta\t echo " + "]") { }

  lemma CharlieNoBrackets() ensures !ContainsAny("charlie delta echo", "[]") { }

  lemma CharlieHeader() ensures HeaderText("[ charlie   delta\t echo ]", "charlie delta echo") {
    CharlieParts();
    CharlieNoBrackets();
    CharlieName();
    HeaderOf("[ charlie   delta\t echo ]", "", " charlie   delta\t echo ", "charlie delta echo");
  }

  lemma Sections2()
    ensures Scan(["", "[alpha]"]) ==
      Running([Section(Location(2, ""), "alpha")], ScanState(Location(2, "alpha"), Location(0, ""), "", []))
  {
    AlphaHeader();
    BlankAt(0, 1, "", Location(0, ""), "", [], "");
    Scan1("", [], ScanState(Location(1, ""), Location(0, ""), "", []));
    HeaderAt(1, 2, "", Location(0, ""), [], "[alpha]", "alpha");
    NoneBefore([Section(Location(2, ""), "alpha")]);
    Scan2("", "[alpha]", [], ScanState(Location(1, ""), Location(0, ""), "", []), [Section(Location(2, ""), "alpha")],
      ScanState(Location(2, "alpha"), Location(0, ""), "", []), [Section(Location(2, ""), "alpha")]);
  }

  lemma Sections4()
    ensures Scan(["", "[alpha]", " [bravo]", ""]) ==
      Running([Section(Location(2, ""), "alpha"), Section(Location(3, "alpha"), "bravo")],
              ScanState(Location(4, "bravo"), Location(0, ""), "", []))
  {
    var evs := [Section(Location(2, ""), "alpha"), Section(Location(3, "alpha"), "bravo")];
    BravoHeader();
    Sections2();
    HeaderAt(2, 3, "alpha", Location(0, ""), [], " [bravo]", "bravo");
    OneOne(Section(Location(2, ""), "alpha"), Section(Location(3, "alpha"), "bravo"));
    Scan3("", "[alpha]", " [bravo]", [Section(Location(2, ""), "alpha")], ScanState(Location(2, "alpha"), Location(0, ""), "", []),
      [Section(Location(3, "alpha"), "bravo")], ScanState(Location(3, "bravo"), Location(0, ""), "", []), evs);
    BlankAt(3, 4, "bravo", Location(0, ""), "", [], "");
    NoneAfter(evs);
    Scan4("", "[alpha]", " [bravo]", "", evs, ScanState(Location(3, "bravo"), Location(0, ""), "", []), [],
      ScanState(Location(4, "bravo"), Location(0, ""), "", []), evs);
  }

  /** Headers give one event each, carrying the section in force before
      them, and open the named section; a name is normalised. */
  lemma Sections()
    ensures ScanAll(["", "[alpha]", " [bravo]", "", "[ charlie   delta\t echo ]"]) ==
      Ok([Section(Location(2, ""), "alpha"), Section(Location(3, "alpha"), "bravo"),
          Section(Location(5, "bravo"), "charlie delta echo")])
  {
    var evs := [Section(Location(2, ""), "alpha"), Section(Location(3, "alpha"), "bravo")];
    var all := [Section(Location(2, ""), "alpha"), Section(Location(3, "alpha"), "bravo"),
                Section(Location(5, "bravo"), "charlie delta echo")];
    CharlieHeader();
    Sections4();
    HeaderAt(4, 5, "bravo", Location(0, ""), [], "[ charlie   delta\t echo ]", "charlie delta echo");
    TwoOne(Section(Location(2, ""), "alpha"), Section(Location(3, "alpha"), "bravo"), Section(Location(5, "bravo"), "charlie delta echo"));
    Scan5("", "[alpha]", " [bravo]", "", "[ charlie   delta\t echo ]", evs, ScanState(Location(4, "bravo"), Location(0, ""), "", []),
      [Section(Location(5, "bravo"), "charlie delta echo")], ScanState(Location(5, "charlie delta echo"), Location(0, ""), "", []), all);
    FinishClear(["", "[alpha]", " [bravo]", "", "[ charlie   delta\t echo ]"], all, 5, "charlie delta echo", Location(0, ""));
  }

  // ---------------------------------------------------------------------
  // "bare keys" (ini_test.go:53-56)

  lemma BareKeys2()
    ensures Scan(["", "  "]) == Running([], ScanState(Location(2, ""), Location(0, ""), "", []))
  {
    BlankAt(0, 1, "", Location(0, ""), "", [], "");
    Scan1("", [], ScanState(Location(1, ""), Location(0, ""), "", []));
    BlankAt(1, 2, "", Location(0, ""), "", [], "  ");
    NoneAfter<Event>([]);
    Scan2("", "  ", [], ScanState(Location(1, ""), Location(0, ""), "", []), [],
      ScanState(Location(2, ""), Location(0, ""), "", []), []);
  }

  lemma BareKeys3()
    ensures Scan(["", "  ", "a"]) ==
      Running([KeyValue(Location(3, ""), "a", [""])], ScanState(Location(3, ""), Location(0, ""), "", []))
  {
    BareLetter('a');
    BareKeys2();
    FirstBareAt(2, 3, "", Location(0, ""), [], "a", "a");
    NoneBefore([KeyValue(Location(3, ""), "a", [""])]);
    Scan3("", "  ", "a", [], ScanState(Location(2, ""), Location(0, ""), "", []), [KeyValue(Location(3, ""), "a", [""])],
      ScanState(Location(3, ""), Location(0, ""), "", []), [KeyValue(Location(3, ""), "a", [""])]);
  }

  /** A line with no '=' is a key with the single value "". */
  lemma BareKeys()
    ensures ScanAll(["", "  ", "a", "b"]) ==
      Ok([KeyValue(Location(3, ""), "a", [""]), KeyValue(Location(4, ""), "b", [""])])
  {
    var all := [KeyValue(Location(3, ""), "a", [""]), KeyValue(Location(4, ""), "b", [""])];
    BareLetter('b');
    BareKeys3();
    FirstBareAt(3, 4, "", Location(0, ""), [], "b", "b");
    OneOne(KeyValue(Location(3, ""), "a", [""]), KeyValue(Location(4, ""), "b", [""]));
    Scan4("", "  ", "a", "b", [KeyValue(Location(3, ""), "a", [""])], ScanState(Location(3, ""), Location(0, ""), "", []),
      [KeyValue(Location(4, ""), "b", [""])], ScanState(Location(4, ""), Location(0, ""), "", []), all);
    FinishClear(["", "  ", "a", "b"], all, 4, "", Location(0, ""));
  }

  // ---------------------------------------------------------------------
  // "multi-value blank" (ini_test.go:63-65)

  lemma BlankFirst1()
    ensures Scan(["a="]) == Running([], ScanState(Location(1, ""), Location(1, ""), "a", [""]))
  {
    PairEmptyValue('a');
    FirstKeyAt(0, 1, "", Location(0, ""), [], "a=", "a", "");
    Scan1("a=", [], ScanState(Location(1, ""), Location(1, ""), "a", [""]));
  }

  lemma BlankFirst2()
    ensures Scan(["a=", " b"]) == Running([], ScanState(Location(2, ""), Location(1, ""), "a", ["b"]))
  {
    MoreLetter('b');
    BlankFirst1();
    FirstValueAt(1, 2, "", Location(1, ""), "a", " b", "b");
    NoneAfter<Event>([]);
    Scan2("a=", " b", [], ScanState(Location(1, ""), Location(1, ""), "a", [""]), [],
      ScanState(Location(2, ""), Location(1, ""), "a", ["b"]), []);
  }

  /** Indented lines after `a=` are its values; the empty first value is
      replaced, not kept. */
  lemma MultiValueBlank()
    ensures ScanAll(["a=", " b", " c"]) == Ok([KeyValue(Location(1, ""), "a", ["b", "c"])])
  {
    MoreLetter('c');
    BlankFirst2();
    OneOne("b", "c");
    NextValueAt(2, 3, "", Location(1, ""), "a", ["b"], ["b", "c"], " c", "c");
    NoneAfter<Event>([]);
    Scan3("a=", " b", " c", [], ScanState(Location(2, ""), Location(1, ""), "a", ["b"]), [],
      ScanState(Location(3, ""), Location(1, ""), "a", ["b", "c"]), []);
    NoneBefore([KeyValue(Location(1, ""), "a", ["b", "c"])]);
    FinishKey(["a=", " b", " c"], [], 3, "", Location(1, ""), "a", ["b", "c"], [KeyValue(Location(1, ""), "a", ["b", "c"])]);
  }

  // ---------------------------------------------------------------------
  // "multi-value nonblank" (ini_test.go:66-68)

  lemma Nonblank1()
    ensures Scan(["a=b"]) == Running([], ScanState(Location(1, ""), Location(1, ""), "a", ["b"]))
  {
    PairLetterValue('a', 'b');
    FirstKeyAt(0, 1, "", Location(0, ""), [], "a=b", "a", "b");
    Scan1("a=b", [], ScanState(Location(1, ""), Location(1, ""), "a", ["b"]));
  }

  lemma Nonblank2()
    ensures Scan(["a=b", " c"]) == Running([], ScanState(Location(2, ""), Location(1, ""), "a", ["b", "c"]))
  {
    MoreLetter('c');
    Nonblank1();
    OneOne("b", "c");
    NextValueAt(1, 2, "", Location(1, ""), "a", ["b"], ["b", "c"], " c", "c");
    NoneAfter<Event>([]);
    Scan2("a=b", " c", [], ScanState(Location(1, ""), Location(1, ""), "a", ["b"]), [],
      ScanState(Location(2, ""), Location(1, ""), "a", ["b", "c"]), []);
  }

  /** A first value on the `key=` line is kept before the indented ones. */
  lemma MultiValueNonblank()
    ensures ScanAll(["a=b", " c", " d"]) == Ok([KeyValue(Location(1, ""), "a", ["b", "c", "d"])])
  {
    MoreLetter('d');
    Nonblank2();
    TwoOne("b", "c", "d");
    NextValueAt(2, 3, "", Location(1, ""), "a", ["b", "c"], ["b", "c", "d"], " d", "d");
    NoneAfter<Event>([]);
    Scan3("a=b", " c", " d", [], ScanState(Location(2, ""), Location(1, ""), "a", ["b", "c"]), [],
      ScanState(Location(3, ""), Location(1, ""), "a", ["b", "c", "d"]), []);
    NoneBefore([KeyValue(Location(1, ""), "a", ["b", "c", "d"])]);
    FinishKey(["a=b", " c", " d"], [], 3, "", Location(1, ""), "a", ["b", "c", "d"], [KeyValue(Location(1, ""), "a", ["b", "c", "d"])]);
  }

  // ---------------------------------------------------------------------
  // "multi-value skip" (ini_test.go:69-71)

  lemma Skip3()
    ensures Scan(["a=", " b", ""]) == Running([], ScanState(Location(3, ""), Location(1, ""), "a", ["b"]))
  {
    BlankFirst2();
    BlankAt(2, 3, "", Location(1, ""), "a", ["b"], "");
    NoneAfter<Event>([]);
    Scan3("a=", " b", "", [], ScanState(Location(2, ""), Location(1, ""), "a", ["b"]), [],
      ScanState(Location(3, ""), Location(1, ""), "a", ["b"]), []);
  }

  lemma Skip4()
    ensures Scan(["a=", " b", "", " c"]) == Running([], ScanState(Location(4, ""), Location(1, ""), "a", ["b", "c"]))
  {
    MoreLetter('c');
    Skip3();
    OneOne("b", "c");
    NextValueAt(3, 4, "", Location(1, ""), "a", ["b"], ["b", "c"], " c", "c");
    NoneAfter<Event>([]);
    Scan4("a=", " b", "", " c", [], ScanState(Location(3, ""), Location(1, ""), "a", ["b"]), [],
      ScanState(Location(4, ""), Location(1, ""), "a", ["b", "c"]), []);
  }

  /** A blank line between values neither ends the key nor adds a value. */
  lemma MultiValueSkip()
    ensures ScanAll(["a=", " b", "", " c", " d"]) == Ok([KeyValue(Location(1, ""), "a", ["b", "c", "d"])])
  {
    MoreLetter('d');
    Skip4();
    TwoOne("b", "c", "d");
    NextValueAt(4, 5, "", Location(1, ""), "a", ["b", "c"], ["b", "c", "d"], " d", "d");
    NoneAfter<Event>([]);
    Scan5("a=", " b", "", " c", " d", [], ScanState(Location(4, ""), Location(1, ""), "a", ["b", "c"]), [],
      ScanState(Location(5, ""), Location(1, ""), "a", ["b", "c", "d"]), []);
    NoneBefore([KeyValue(Location(1, ""), "a", ["b", "c", "d"])]);
    FinishKey(["a=", " b", "", " c", " d"], [], 5, "", Location(1, ""), "a", ["b", "c", "d"],
      [KeyValue(Location(1, ""), "a", ["b", "c", "d"])]);
  }

  // ---------------------------------------------------------------------
  // "mixed-value blank" (ini_test.go:72-76)

  lemma Mixed3()
    ensures Scan(["a=", " b", "c="]) ==
      Running([KeyValue(Location(1, ""), "a", ["b"])], ScanState(Location(3, ""), Location(3, ""), "c", [""]))
  {
    PairEmptyValue('c');
    BlankFirst2();
    NextKeyAt(2, 3, "", Location(1, ""), "a", ["b"], "c=", "c", "");
    NoneBefore([KeyValue(Location(1, ""), "a", ["b"])]);
    Scan3("a=", " b", "c=", [], ScanState(Location(2, ""), Location(1, ""), "a", ["b"]), [KeyValue(Location(1, ""), "a", ["b"])],
      ScanState(Location(3, ""), Location(3, ""), "c", [""]), [KeyValue(Location(1, ""), "a", ["b"])]);
  }

  /** An unindented line without '=' is a new bare key, not a value of the
      pending one. */
  lemma MixedValueBlank()
    ensures ScanAll(["a=", " b", "c=", "d"]) ==
      Ok([KeyValue(Location(1, ""), "a", ["b"]), KeyValue(Location(3, ""), "c", [""]), KeyValue(Location(4, ""), "d", [""])])
  {
    var all := [KeyValue(Location(1, ""), "a", ["b"]), KeyValue(Location(3, ""), "c", [""]), KeyValue(Location(4, ""), "d", [""])];
    BareLetter('d');
    Mixed3();
    NextBareAt(3, 4, "", Location(3, ""), "c", [""], "d", "d");
    OneTwo(KeyValue(Location(1, ""), "a", ["b"]), KeyValue(Location(3, ""), "c", [""]), KeyValue(Location(4, ""), "d", [""]));
    Scan4("a=", " b", "c=", "d", [KeyValue(Location(1, ""), "a", ["b"])], ScanState(Location(3, ""), Location(3, ""), "c", [""]),
      [KeyValue(Location(3, ""), "c", [""]), KeyValue(Location(4, ""), "d", [""])], ScanState(Location(4, ""), Location(3, ""), "", []), all);
    FinishClear(["a=", " b", "c=", "d"], all, 4, "", Location(3, ""));
  }

  // ---------------------------------------------------------------------
  // "mixed-value indent" (ini_test.go:77-81)

  lemma Indent4()
    ensures Scan(["a=", " b", " c=d", ""]) ==
      Running([KeyValue(Location(1, ""), "a", ["b"])], ScanState(Location(4, ""), Location(3, ""), "c", ["d"]))
  {
    var evs := [KeyValue(Location(1, ""), "a", ["b"])];
    PairIndented('c', 'd');
    BlankFirst2();
    NextKeyAt(2, 3, "", Location(1, ""), "a", ["b"], " c=d", "c", "d");
    NoneBefore(evs);
    Scan3("a=", " b", " c=d", [], ScanState(Location(2, ""), Location(1, ""), "a", ["b"]), evs,
      ScanState(Location(3, ""), Location(3, ""), "c", ["d"]), evs);
    BlankAt(3, 4, "", Location(3, ""), "c", ["d"], "");
    NoneAfter(evs);
    Scan4("a=", " b", " c=d", "", evs, ScanState(Location(3, ""), Location(3, ""), "c", ["d"]), [],
      ScanState(Location(4, ""), Location(3, ""), "c", ["d"]), evs);
  }

  /** An indented line with '=' starts a new key rather than continuing the
      pending one. */
  lemma MixedValueIndent()
    ensures ScanAll(["a=", " b", " c=d", "", "e"]) ==
      Ok([KeyValue(Location(1, ""), "a", ["b"]), KeyValue(Location(3, ""), "c", ["d"]), KeyValue(Location(5, ""), "e", [""])])
  {
    var all := [KeyValue(Location(1, ""), "a", ["b"]), KeyValue(Location(3, ""), "c", ["d"]), KeyValue(Location(5, ""), "e", [""])];
    BareLetter('e');
    Indent4();
    NextBareAt(4, 5, "", Location(3, ""), "c", ["d"], "e", "e");
    OneTwo(KeyValue(Location(1, ""), "a", ["b"]), KeyValue(Location(3, ""), "c", ["d"]), KeyValue(Location(5, ""), "e", [""]));
    Scan5("a=", " b", " c=d", "", "e", [KeyValue(Location(1, ""), "a", ["b"])], ScanState(Location(4, ""), Location(3, ""), "c", ["d"]),
      [KeyValue(Location(3, ""), "c", ["d"]), KeyValue(Location(5, ""), "e", [""])], ScanState(Location(5, ""), Location(3, ""), "", []), all);
    FinishClear(["a=", " b", " c=d", "", "e"], all, 5, "", Location(3, ""));
  }

  // ---------------------------------------------------------------------
  // "normalize keys" (ini_test.go:83-85)

  lemma LongKeySpaces() ensures " a   long   key = value   village" == " " + "a   long   key = value   village" + "" { }

  lemma LongKeyEnds()
    ensures "a   long   key = value   village" == ['a'] + "   long   key = value   villag" + ['e']
  {
  }

  lemma LongKeyTrim() ensures TrimSpace(" a   long   key = value   village") == "a   long   key = value   village" {
    LongKeySpaces();
    LongKeyEnds();
    TrimAround(" a   long   key = value   village", " ", 'a', "   long   key = value   villag", 'e', "");
  }

  lemma LongKeyWords1() ensures Fields("   key ") == ["key"] {
    assert "   key " == "   " + "key" + " ";
    FieldsOfSpaced("   ", "key", " ");
  }

  lemma LongKeyWords2() ensures Fields("   long   key ") == ["long", "key"] {
    assert "   long   key " == "   " + "long" + "   key ";
    FieldsOfSpaced("   ", "long", "   key ");
    LongKeyWords1();
    OneOne("long", "key");
  }

  lemma LongKeyWords() ensures Fields("a   long   key ") == ["a", "long", "key"] {
    assert "a   long   key " == "" + "a" + "   long   key ";
    FieldsOfSpaced("", "a", "   long   key ");
    LongKeyWords2();
    OneTwo("a", "long", "key");
  }

  lemma LongKeyJoin() ensures Join(["a", "long", "key"], " ") == "a long key" {
    JoinThree("a", "long", "key");
  }

  lemma LongKeyName() ensures CleanKey("a   long   key ") == "a long key" {
    LongKeyWords();
    CleanOfFields("a   long   key ", ["a", "long", "key"]);
    LongKeyJoin();
  }

  lemma LongKeyValue() ensures TrimSpace(" value   village") == "value   village" {
    TrimSpaceOf(" value   village", 1, 16);
  }

  lemma LongKeySplit()
    ensures "a   long   key = value   village" == "a   long   key " + "=" + " value   village"
    ensures '=' !in "a   long   key "
  {
  }

  lemma LongKeyText() ensures PairText(" a   long   key = value   village", "a long key", "value   village") {
    LongKeyTrim();
    LongKeySplit();
    LongKeyName();
    LongKeyValue();
    PairOf(" a   long   key = value   village", "a   long   key = value   village", "a   long   key ", " value   village",
      "a long key", "value   village");
  }

  /** Runs of whitespace inside a key become one space; inside a value they
      are kept. */
  lemma NormalizeKeys()
    ensures ScanAll([" a   long   key = value   village"]) ==
      Ok([KeyValue(Location(1, ""), "a long key", ["value   village"])])
  {
    LongKeyText();
    FirstKeyAt(0, 1, "", Location(0, ""), [], " a   long   key = value   village", "a long key", "value   village");
    Scan1(" a   long   key = value   village", [], ScanState(Location(1, ""), Location(1, ""), "a long key", ["value   village"]));
    NoneBefore([KeyValue(Location(1, ""), "a long key", ["value   village"])]);
    FinishKey([" a   long   key = value   village"], [], 1, "", Location(1, ""), "a long key", ["value   village"],
      [KeyValue(Location(1, ""), "a long key", ["value   village"])]);
  }

  // ---------------------------------------------------------------------
  // "sample.ini" (ini_test.go:86-93, input at ini_test.go:321-326)

  // Lines longer than forty characters are written as two literals
  // joined by `+`, which denotes the same string.

  lemma SampleComment() ensures CommentText("; Example with quotes " + "and trailing whitespace") {
    assert "; Example with quotes "[0] == ';';
    CommentPieces("; Example with quotes ", "and trailing whitespace");
  }

  lemma QuotedParts() ensures "[quoted_fields]   " == "" + ("[" + "quoted_fields" + "]") + "   " { }

  lemma QuotedWord() ensures IsWord("quoted_fields") { }

  lemma QuotedNoBrackets() ensures !ContainsAny("quoted_fields", "[]") { }

  lemma QuotedHeader() ensures HeaderText("[quoted_fields]   ", "quoted_fields") {
    QuotedParts();
    QuotedWord();
    QuotedNoBrackets();
    HeaderPaddedWord("[quoted_fields]   ", "", "quoted_fields", "   ");
  }

  lemma RequiredParts()
    ensures "  required = " == "  " + "required" + (" " + "=" + " ")
    ensures "\"EmailAddr,FirstName,LastName,Mesg\"   " == "\"EmailAddr,FirstName,LastName,Mesg\"" + "   "
  {
  }

  lemma RequiredWord() ensures IsWord("required") && "required"[0] != ';' && "required"[0] != '[' && '=' !in "required" { }

  lemma RequiredEnds()
    ensures "\"EmailAddr,FirstName,LastName,Mesg\"" != []
    ensures !IsSpace("\"EmailAddr,FirstName,LastName,Mesg\""[0])
    ensures !IsSpace("\"EmailAddr,FirstName,LastName,Mesg\""[|"\"EmailAddr,FirstName,LastName,Mesg\""| - 1])
  {
  }

  lemma RequiredText()
    ensures PairText("  required = " + "\"EmailAddr,FirstName,LastName,Mesg\"   ", "required",
                     "\"EmailAddr,FirstName,LastName,Mesg\"")
  {
    RequiredParts();
    RequiredWord();
    RequiredEnds();
    PairParts("  required = " + "\"EmailAddr,FirstName,LastName,Mesg\"   ", "  ", "required", " ", " ",
              "\"EmailAddr,FirstName,LastName,Mesg\"", "   ");
  }

  lemma CsvParts()
    ensures "  csvfile = \"contacts.csv\" " == ("  " + "csvfile" + (" " + "=" + " ")) + ("\"contacts.csv\"" + " ")
  {
  }

  lemma CsvWord() ensures IsWord("csvfile") && "csvfile"[0] != ';' && "csvfile"[0] != '[' && '=' !in "csvfile" { }

  lemma CsvEnds() ensures "\"contacts.csv\"" != [] && !IsSpace("\"contacts.csv\""[0]) && !IsSpace("\"contacts.csv\""[|"\"contacts.csv\""| - 1]) { }

  lemma CsvText() ensures PairText("  csvfile = \"contacts.csv\" ", "csvfile", "\"contacts.csv\"") {
    CsvParts();
    CsvWord();
    CsvEnds();
    PairParts("  csvfile = \"contacts.csv\" ", "  ", "csvfile", " ", " ", "\"contacts.csv\"", " ");
  }

  lemma Sample2()
    ensures Scan(["; Example with quotes " + "and trailing whitespace", ""]) ==
      Running([Comment(Location(1, ""), "; Example with quotes " + "and trailing whitespace")],
              ScanState(Location(2, ""), Location(0, ""), "", []))
  {
    var l1 := "; Example with quotes " + "and trailing whitespace";
    var note := Comment(Location(1, ""), l1);
    var st1 := ScanState(Location(1, ""), Location(0, ""), "", []);
    var st2 := ScanState(Location(2, ""), Location(0, ""), "", []);
    SampleComment();
    CommentAt(0, 1, "", Location(0, ""), [], l1);
    Scan1(l1, [note], st1);
    BlankAt(1, 2, "", Location(0, ""), "", [], "");
    NoneAfter([note]);
    Scan2(l1, "", [note], st1, [], st2, [note]);
  }

  lemma Sample3()
    ensures Scan(["; Example with quotes " + "and trailing whitespace", "", "[quoted_fields]   "]) ==
      Running([Comment(Location(1, ""), "; Example with quotes " + "and trailing whitespace"),
               Section(Location(3, ""), "quoted_fields")],
              ScanState(Location(3, "quoted_fields"), Location(0, ""), "", []))
  {
    var l1 := "; Example with quotes " + "and trailing whitespace";
    var note := Comment(Location(1, ""), l1);
    var header := Section(Location(3, ""), "quoted_fields");
    var st2 := ScanState(Location(2, ""), Location(0, ""), "", []);
    var st3 := ScanState(Location(3, "quoted_fields"), Location(0, ""), "", []);
    QuotedHeader();
    Sample2();
    HeaderAt(2, 3, "", Location(0, ""), [], "[quoted_fields]   ", "quoted_fields");
    OneOne(note, header);
    Scan3(l1, "", "[quoted_fields]   ", [note], st2, [header], st3, [note, header]);
  }

  lemma Sample4()
    ensures Scan(["; Example with quotes " + "and trailing whitespace", "", "[quoted_fields]   ",
                  "  required = " + "\"EmailAddr,FirstName,LastName,Mesg\"   "]) ==
      Running([Comment(Location(1, ""), "; Example with quotes " + "and trailing whitespace"),
               Section(Location(3, ""), "quoted_fields")],
              ScanState(Location(4, "quoted_fields"), Location(4, "quoted_fields"), "required",
                        ["\"EmailAddr,FirstName,LastName,Mesg\""]))
  {
    var l1 := "; Example with quotes " + "and trailing whitespace";
    var l4 := "  required = " + "\"EmailAddr,FirstName,LastName,Mesg\"   ";
    var evs := [Comment(Location(1, ""), l1), Section(Location(3, ""), "quoted_fields")];
    var st3 := ScanState(Location(3, "quoted_fields"), Location(0, ""), "", []);
    var st4 := ScanState(Location(4, "quoted_fields"), Location(4, "quoted_fields"), "required",
                         ["\"EmailAddr,FirstName,LastName,Mesg\""]);
    RequiredText();
    Sample3();
    FirstKeyAt(3, 4, "quoted_fields", Location(0, ""), [], l4, "required", "\"EmailAddr,FirstName,LastName,Mesg\"");
    NoneAfter(evs);
    Scan4(l1, "", "[quoted_fields]   ", l4, evs, st3, [], st4, evs);
  }

  lemma Sample5()
    ensures Scan(["; Example with quotes " + "and trailing whitespace", "", "[quoted_fields]   ",
                  "  required = " + "\"EmailAddr,FirstName,LastName,Mesg\"   ",
                  "  csvfile = \"contacts.csv\" "]) ==
      Running([Comment(Location(1, ""), "; Example with quotes " + "and trailing whitespace"),
               Section(Location(3, ""), "quoted_fields"),
               KeyValue(Location(4, "quoted_fields"), "required", ["\"EmailAddr,FirstName,LastName,Mesg\""])],
              ScanState(Location(5, "quoted_fields"), Location(5, "quoted_fields"), "csvfile", ["\"contacts.csv\""]))
  {
    var l1 := "; Example with quotes " + "and trailing whitespace";
    var l4 := "  required = " + "\"EmailAddr,FirstName,LastName,Mesg\"   ";
    var l5 := "  csvfile = \"contacts.csv\" ";
    var note := Comment(Location(1, ""), l1);
    var header := Section(Location(3, ""), "quoted_fields");
    var required := KeyValue(Location(4, "quoted_fields"), "required", ["\"EmailAddr,FirstName,LastName,Mesg\""]);
    var st4 := ScanState(Location(4, "quoted_fields"), Location(4, "quoted_fields"), "required",
                         ["\"EmailAddr,FirstName,LastName,Mesg\""]);
    var st5 := ScanState(Location(5, "quoted_fields"), Location(5, "quoted_fields"), "csvfile", ["\"contacts.csv\""]);
    CsvText();
    Sample4();
    NextKeyAt(4, 5, "quoted_fields", Location(4, "quoted_fields"), "required",
      ["\"EmailAddr,FirstName,LastName,Mesg\""], l5, "csvfile", "\"contacts.csv\"");
    TwoOne(note, header, required);
    Scan5(l1, "", "[quoted_fields]   ", l4, l5, [note, header], st4, [required], st5, [note, header, required]);
  }

  /** A comment, a header with trailing whitespace, and two indented
      `key=value` lines: the header name and the values are trimmed, and
      the quotation marks around the values are kept. */
  lemma SampleFile()
    ensures ScanAll(["; Example with quotes " + "and trailing whitespace", "", "[quoted_fields]   ",
                     "  required = " + "\"EmailAddr,FirstName,LastName,Mesg\"   ",
                     "  csvfile = \"contacts.csv\" "]) ==
      Ok([Comment(Location(1, ""), "; Example with quotes " + "and trailing whitespace"),
          Section(Location(3, ""), "quoted_fields"),
          KeyValue(Location(4, "quoted_fields"), "required", ["\"EmailAddr,FirstName,LastName,Mesg\""]),
          KeyValue(Location(5, "quoted_fields"), "csvfile", ["\"contacts.csv\""])])
  {
    var l1 := "; Example with quotes " + "and trailing whitespace";
    var l4 := "  required = " + "\"EmailAddr,FirstName,LastName,Mesg\"   ";
    var l5 := "  csvfile = \"contacts.csv\" ";
    var note := Comment(Location(1, ""), l1);
    var header := Section(Location(3, ""), "quoted_fields");
    var required := KeyValue(Location(4, "quoted_fields"), "required", ["\"EmailAddr,FirstName,LastName,Mesg\""]);
    var csv := KeyValue(Location(5, "quoted_fields"), "csvfile", ["\"contacts.csv\""]);
    Sample5();
    ThreeOne(note, header, required, csv);
    FinishKey([l1, "", "[quoted_fields]   ", l4, l5], [note, header, required], 5, "quoted_fields",
      Location(5, "quoted_fields"), "csvfile", ["\"contacts.csv\""], [note, header, required, csv]);
  }

  // ---------------------------------------------------------------------
  // Syntax errors (ini_test.go:165-174)

  lemma UnclosedText()
    ensures ErrorFromLine(SyntaxError(Location(1, ""), MsgUnclosedHeader, "bad"), "[bad")
  {
    TrimSpaceOf("[bad", 0, 4);
    assert "[bad"[0..4] == "[bad" && "[bad"[1..] == "bad";
  }

  /** A header without its closing bracket: the key is what follows '['. */
  lemma UnclosedHeaderError()
    ensures ScanAll(["[bad"]) == Fail([], SyntaxError(Location(1, ""), MsgUnclosedHeader, "bad"))
  {
    UnclosedText();
    ErrorAt(0, 1, "", Location(0, ""), "", [], "[bad", SyntaxError(Location(1, ""), MsgUnclosedHeader, "bad"));
    Stop1("[bad", SyntaxError(Location(1, ""), MsgUnclosedHeader, "bad"));
  }

  /** The whitespace-split words of two words and the space between them. */
  lemma TwoWords(w1: string, w2: string)
    requires IsWord(w1) && IsWord(w2)
    ensures CleanKey(w1 + " " + w2) == w1 + " " + w2
  {
    FieldsOfWord(w2);
    FieldsOfCons(w1, w2);
    CleanOfFields(w1 + " " + w2, [w1, w2]);
    JoinTwo(w1, w2);
  }

  /** A closed header whose normalised name holds a bracket. */
  lemma InvalidOf(text: string, sp: string, inner: string, e: SyntaxError)
    requires text == sp + ("[" + inner + "]") && AllSpace(sp)
    requires e.desc == MsgInvalidSection && e.key == CleanKey(inner) && ('[' in e.key || ']' in e.key)
    ensures ErrorFromLine(e, text)
  {
    HeaderTrim(sp, "[" + inner + "]");
    BracketsInner(inner);
  }

  lemma TrailingBracketParts()
    ensures "[bad name]]" == "" + ("[" + "bad name]" + "]") && "bad name]" == "bad" + " " + "name]"
  {
  }

  lemma TrailingBracketName() ensures CleanKey("bad name]") == "bad name]" {
    TrailingBracketParts();
    TwoWords("bad", "name]");
  }

  lemma TrailingBracketText()
    ensures ErrorFromLine(SyntaxError(Location(1, ""), MsgInvalidSection, "bad name]"), "[bad name]]")
  {
    TrailingBracketParts();
    TrailingBracketName();
    InvalidOf("[bad name]]", "", "bad name]", SyntaxError(Location(1, ""), MsgInvalidSection, "bad name]"));
  }

  /** A header whose name holds ']' is invalid; the key is the normalised
      name. */
  lemma TrailingBracketError()
    ensures ScanAll(["[bad name]]"]) == Fail([], SyntaxError(Location(1, ""), MsgInvalidSection, "bad name]"))
  {
    TrailingBracketText();
    ErrorAt(0, 1, "", Location(0, ""), "", [], "[bad name]]", SyntaxError(Location(1, ""), MsgInvalidSection, "bad name]"));
    Stop1("[bad name]]", SyntaxError(Location(1, ""), MsgInvalidSection, "bad name]"));
  }

  lemma LeadingBracketParts()
    ensures "[[bad name]" == "" + ("[" + "[bad name" + "]") && "[bad name" == "[bad" + " " + "name"
  {
  }

  lemma LeadingBracketName() ensures CleanKey("[bad name") == "[bad name" {
    LeadingBracketParts();
    TwoWords("[bad", "name");
  }

  lemma LeadingBracketText()
    ensures ErrorFromLine(SyntaxError(Location(1, ""), MsgInvalidSection, "[bad name"), "[[bad name]")
  {
    LeadingBracketParts();
    LeadingBracketName();
    InvalidOf("[[bad name]", "", "[bad name", SyntaxError(Location(1, ""), MsgInvalidSection, "[bad name"));
  }

  /** A header whose name holds '[' is invalid. */
  lemma LeadingBracketError()
    ensures ScanAll(["[[bad name]"]) == Fail([], SyntaxError(Location(1, ""), MsgInvalidSection, "[bad name"))
  {
    LeadingBracketText();
    ErrorAt(0, 1, "", Location(0, ""), "", [], "[[bad name]", SyntaxError(Location(1, ""), MsgInvalidSection, "[bad name"));
    Stop1("[[bad name]", SyntaxError(Location(1, ""), MsgInvalidSection, "[bad name"));
  }

  lemma MissingKeyTrim1() ensures TrimSpace("= missing key") == "= missing key" {
    TrimSpaceOf("= missing key", 0, 13);
    assert "= missing key"[0..13] == "= missing key";
  }

  lemma MissingKeySpaces() ensures "  = missing key " == "  " + "= missing key" + " " { }

  lemma MissingKeyEnds() ensures "= missing key" == ['='] + " missing ke" + ['y'] { }

  lemma MissingKeyTrim2() ensures TrimSpace("  = missing key ") == "= missing key" {
    MissingKeySpaces();
    MissingKeyEnds();
    TrimAround("  = missing key ", "  ", '=', " missing ke", 'y', " ");
  }

  lemma MissingKeyClean() ensures EmptyKey(SyntaxError(Location(1, ""), MsgEmptyKey, ""), "= missing key") {
    assert "= missing key"[..0] == "";
  }

  lemma MissingKeyText()
    ensures ErrorFromLine(SyntaxError(Location(1, ""), MsgEmptyKey, ""), "= missing key")
    ensures ErrorFromLine(SyntaxError(Location(1, ""), MsgEmptyKey, ""), "  = missing key ")
  {
    MissingKeyTrim1();
    MissingKeyTrim2();
    MissingKeyClean();
  }

  /** A line that starts with '=', after any whitespace, has an empty key. */
  lemma MissingKeyError()
    ensures ScanAll(["= missing key"]) == Fail([], SyntaxError(Location(1, ""), MsgEmptyKey, ""))
    ensures ScanAll(["  = missing key "]) == Fail([], SyntaxError(Location(1, ""), MsgEmptyKey, ""))
  {
    MissingKeyText();
    ErrorAt(0, 1, "", Location(0, ""), "", [], "= missing key", SyntaxError(Location(1, ""), MsgEmptyKey, ""));
    Stop1("= missing key", SyntaxError(Location(1, ""), MsgEmptyKey, ""));
    ErrorAt(0, 1, "", Location(0, ""), "", [], "  = missing key ", SyntaxError(Location(1, ""), MsgEmptyKey, ""));
    Stop1("  = missing key ", SyntaxError(Location(1, ""), MsgEmptyKey, ""));
  }

  // ---------------------------------------------------------------------
  // Where the documentation of ini.go overstates what the scanner does

  /** A repeated `key=` line appends an empty value to the pending key, so
      a key can have several values one of which is "", although the
      documentation at ini.go:146-147 says that cannot happen. */
  lemma RepeatedEmptyValue()
    ensures ScanAll(["a=x", "a="]) == Ok([KeyValue(Location(1, ""), "a", ["x", ""])])
  {
    PairLetterValue('a', 'x');
    PairEmptyValue('a');
    FirstKeyAt(0, 1, "", Location(0, ""), [], "a=x", "a", "x");
    Scan1("a=x", [], ScanState(Location(1, ""), Location(1, ""), "a", ["x"]));
    OneOne("x", "");
    SameKeyAt(1, 2, "", Location(1, ""), "a", ["x"], ["x", ""], "a=", "");
    NoneAfter<Event>([]);
    Scan2("a=x", "a=", [], ScanState(Location(1, ""), Location(1, ""), "a", ["x"]), [],
      ScanState(Location(2, ""), Location(1, ""), "a", ["x", ""]), []);
    NoneBefore([KeyValue(Location(1, ""), "a", ["x", ""])]);
    FinishKey(["a=x", "a="], [], 2, "", Location(1, ""), "a", ["x", ""], [KeyValue(Location(1, ""), "a", ["x", ""])]);
  }

  /** After a value for the same key, a bare key is a new event. */
  lemma BareAfterSameKey()
    ensures ScanAll(["a=x", "a"]) == Ok([KeyValue(Location(1, ""), "a", ["x"]), KeyValue(Location(2, ""), "a", [""])])
  {
    PairLetterValue('a', 'x');
    BareLetter('a');
    FirstKeyAt(0, 1, "", Location(0, ""), [], "a=x", "a", "x");
    Scan1("a=x", [], ScanState(Location(1, ""), Location(1, ""), "a", ["x"]));
    NextBareAt(1, 2, "", Location(1, ""), "a", ["x"], "a", "a");
    NoneBefore([KeyValue(Location(1, ""), "a", ["x"]), KeyValue(Location(2, ""), "a", [""])]);
    Scan2("a=x", "a", [], ScanState(Location(1, ""), Location(1, ""), "a", ["x"]),
      [KeyValue(Location(1, ""), "a", ["x"]), KeyValue(Location(2, ""), "a", [""])], ScanState(Location(2, ""), Location(1, ""), "", []),
      [KeyValue(Location(1, ""), "a", ["x"]), KeyValue(Location(2, ""), "a", [""])]);
    FinishClear(["a=x", "a"], [KeyValue(Location(1, ""), "a", ["x"]), KeyValue(Location(2, ""), "a", [""])], 2, "", Location(1, ""));
  }

  /** The documentation at ini.go:139-144 calls `foo` and `foo=`
      equivalent; when `foo` is the key already pending they are not. */
  lemma BareKeyNotEquivalent()
    ensures ScanAll(["a=x", "a"]) != ScanAll(["a=x", "a="])
  {
    RepeatedEmptyValue();
    BareAfterSameKey();
    assert |ScanAll(["a=x", "a"]).events| == 2;
  }

  /** A bare key never becomes pending, so an indented line after it is a
      bare key of its own rather than its value. */
  lemma IndentedAfterBareKey()
    ensures ScanAll(["a", " b"]) == Ok([KeyValue(Location(1, ""), "a", [""]), KeyValue(Location(2, ""), "b", [""])])
  {
    BareLetter('a');
    MoreLetter('b');
    LetterKey('b');
    FirstBareAt(0, 1, "", Location(0, ""), [], "a", "a");
    Scan1("a", [KeyValue(Location(1, ""), "a", [""])], ScanState(Location(1, ""), Location(0, ""), "", []));
    IndentedBareAt(1, 2, "", Location(0, ""), [], " b", "b", "b");
    OneOne(KeyValue(Location(1, ""), "a", [""]), KeyValue(Location(2, ""), "b", [""]));
    Scan2("a", " b", [KeyValue(Location(1, ""), "a", [""])], ScanState(Location(1, ""), Location(0, ""), "", []),
      [KeyValue(Location(2, ""), "b", [""])], ScanState(Location(2, ""), Location(0, ""), "", []),
      [KeyValue(Location(1, ""), "a", [""]), KeyValue(Location(2, ""), "b", [""])]);
    FinishClear(["a", " b"], [KeyValue(Location(1, ""), "a", [""]), KeyValue(Location(2, ""), "b", [""])], 2, "", Location(0, ""));
  }

  /** `a=` followed by an indented line gives the one key `a` with that
      line as its value. */
  lemma IndentedAfterEmptyValue()
    ensures ScanAll(["a=", " b"]) == Ok([KeyValue(Location(1, ""), "a", ["b"])])
  {
    BlankFirst2();
    NoneBefore([KeyValue(Location(1, ""), "a", ["b"])]);
    FinishKey(["a=", " b"], [], 2, "", Location(1, ""), "a", ["b"], [KeyValue(Location(1, ""), "a", ["b"])]);
  }

  /** The equivalence of `foo` and `foo=` the documentation at
      ini.go:139-144 states fails when an indented line follows: it is a
      value of `foo=` but a key of its own after `foo`. */
  lemma BareKeyNotEquivalentIndented()
    ensures ScanAll(["a", " b"]) != ScanAll(["a=", " b"])
  {
    IndentedAfterBareKey();
    IndentedAfterEmptyValue();
    assert |ScanAll(["a", " b"]).events| == 2;
  }
}
